/** The record shapes of the tag registry: a tag and the database document that holds them. */
module Model {
  import opened Wrappers

  /** An ISO-8601 timestamp, kept as the opaque string the clock produced. */
  type Timestamp = string

  /** The open `metadata` record of a tag; its values are kept opaque as strings. */
  type Metadata = map<string, string>

  /** A named record. `name` and `createdAt` are always present; the rest is optional. */
  datatype Tag = Tag(
    name: string,
    category: Option<string>,
    description: Option<string>,
    createdAt: Timestamp,
    updatedAt: Option<Timestamp>,
    metadata: Option<Metadata>)

  /** The tags of a database, indexed by name. */
  type TagMap = map<string, Tag>

  /** The schema stamp of a database document. */
  datatype Meta = Meta(version: string, tool: string)

  /** The whole persisted document. */
  datatype Database = Database(tags: TagMap, lastUpdated: Timestamp, meta: Meta)

  /** Every key names the tag stored under it: the name is the tag's identifier. */
  ghost predicate WellKeyed(tags: TagMap)
  {
    forall k :: k in tags ==> tags[k].name == k
  }

  /** In a well-keyed collection a stored tag is found again under its own name. */
  lemma WellKeyedLookup(tags: TagMap, t: Tag)
    requires WellKeyed(tags)
    requires t in tags.Values
    ensures t.name in tags && tags[t.name] == t
  {
    var k :| k in tags && tags[k] == t;
  }

  /** Because the name is the key, the stored tags alone determine the whole collection. */
  lemma WellKeyedByValues(a: TagMap, b: TagMap)
    requires WellKeyed(a) && WellKeyed(b)
    requires a.Values == b.Values
    ensures a == b
  {
    forall k | k in a
      ensures k in b && b[k] == a[k]
    {
      assert a[k] in b.Values;
      WellKeyedLookup(b, a[k]);
    }
    forall k | k in b
      ensures k in a
    {
      assert b[k] in a.Values;
      WellKeyedLookup(a, b[k]);
    }
  }
}
