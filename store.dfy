/**
 * The tag store's behaviour on values: the cache-or-read-or-bootstrap load, the
 * whole-document save, the key-checked add, delete and update, the two queries
 * and the backup file name. The class in service.dfy is specified by these.
 */
module Store {
  import opened Wrappers
  import opened Model
  import opened Strings

  /** The schema stamp written into a freshly created database. */
  const SchemaVersion: string := "1.0.0"
  const ToolName: string := "ollama-tag-cli"

  /** The failures the store raises itself. */
  datatype StoreError =
    | NotLoaded             // save called before any load
    | AlreadyExists(name: string)
    | NotFound(name: string)
    | BackupFailed(path: string)  // the database file to copy is missing

  /** The documents on disk, by path. */
  type Files = map<string, Database>

  /** The database in memory together with the disk after an operation. */
  datatype Loaded = Loaded(db: Database, files: Files)

  // ---------------------------------------------------------------- load and save

  /** The empty database created when no file exists yet. */
  function Fresh(now: Timestamp): Database
  {
    Database(map[], now, Meta(SchemaVersion, ToolName))
  }

  /** Saving: refresh `lastUpdated`, then write the whole document to `path`. */
  function Save(d: Database, files: Files, path: string, now: Timestamp): (r: Loaded)
    ensures r.db.tags == d.tags && r.db.meta == d.meta && r.db.lastUpdated == now
    ensures path in r.files && r.files[path] == r.db
    ensures r.files.Keys == files.Keys + {path}
    ensures forall p :: p in files && p != path ==> r.files[p] == files[p]
  {
    var stamped := d.(lastUpdated := now);
    Loaded(stamped, files[path := stamped])
  }

  /** Loading: the cached copy if there is one, else the file, else a fresh database that is saved at once. */
  function Load(cache: Option<Database>, files: Files, path: string, now: Timestamp): (r: Loaded)
    ensures path in files ==> r.files == files
    ensures path !in files ==> r.files.Keys <= files.Keys + {path}
    ensures forall p :: p in files ==> p in r.files && r.files[p] == files[p]
    ensures cache.None? ==> path in r.files && r.files[path] == r.db
    ensures cache.Some? ==> r.db == cache.value
  {
    if cache.Some? then Loaded(cache.value, files)
    else if path in files then Loaded(files[path], files)
    else Save(Fresh(now), files, path, now)
  }

  /** Once cached, loading returns the cached database and leaves the disk alone, even if the file changed. */
  lemma LoadCached(d: Database, files: Files, path: string, now: Timestamp)
    ensures Load(Some(d), files, path, now) == Loaded(d, files)
  {
  }

  /** The first load of an existing file returns its contents and writes nothing. */
  lemma LoadReadsFile(files: Files, path: string, now: Timestamp)
    requires path in files
    ensures Load(None, files, path, now) == Loaded(files[path], files)
  {
  }

  /** The first load without a file creates an empty, stamped database and writes it to disk. */
  lemma LoadBootstraps(files: Files, path: string, now: Timestamp)
    requires path !in files
    ensures var r := Load(None, files, path, now);
      && r.db.tags == map[] && r.db.meta == Meta("1.0.0", "ollama-tag-cli") && r.db.lastUpdated == now
      && r.files == files[path := r.db]
  {
  }

  /** After a first load the file holds the loaded database; a second load changes nothing. */
  lemma LoadSettles(files: Files, path: string, now: Timestamp, later: Timestamp)
    ensures var r := Load(None, files, path, now);
      && path in r.files && r.files[path] == r.db
      && Load(Some(r.db), r.files, path, later) == r
  {
  }

  // ---------------------------------------------------------------- key operations

  /** `addTag`: reject a name that is already a key, else store the tag unchanged under its name. */
  function Add(tags: TagMap, t: Tag): (r: Result<TagMap, StoreError>)
    ensures r.Failure? <==> t.name in tags
    ensures r.Failure? ==> r.error == AlreadyExists(t.name)
    ensures r.Success? ==> r.value.Keys == tags.Keys + {t.name} && r.value[t.name] == t
    ensures r.Success? ==> forall k :: k in tags ==> r.value[k] == tags[k]
  {
    if t.name in tags then Failure(AlreadyExists(t.name)) else Success(tags[t.name := t])
  }

  /** `deleteTag`: reject a name that is not a key, else remove that key. */
  function Delete(tags: TagMap, name: string): (r: Result<TagMap, StoreError>)
    ensures r.Failure? <==> name !in tags
    ensures r.Failure? ==> r.error == NotFound(name)
    ensures r.Success? ==> r.value.Keys == tags.Keys - {name}
    ensures r.Success? ==> forall k :: k in r.value ==> r.value[k] == tags[k]
  {
    if name !in tags then Failure(NotFound(name)) else Success(tags - {name})
  }

  /** A field of a partial update: not supplied, or supplied (possibly as `undefined`). */
  datatype Field<T> = Keep | Put(value: Option<T>)

  /** The updatable fields of a tag; `name` and `createdAt` are not among them. */
  datatype TagUpdate = TagUpdate(
    category: Field<string>,
    description: Field<string>,
    updatedAt: Field<Timestamp>,
    metadata: Field<Metadata>)

  /** One field of an object spread: a supplied value wins over the current one. */
  function Merge<T>(f: Field<T>, current: Option<T>): Option<T>
  {
    match f
    case Keep => current
    case Put(v) => v
  }

  /** `{...t, ...u, updatedAt: now}`. */
  function Apply(t: Tag, u: TagUpdate, now: Timestamp): (r: Tag)
    ensures r.name == t.name && r.createdAt == t.createdAt
    ensures r.updatedAt == Some(now)
    ensures u.category.Keep? ==> r.category == t.category
    ensures u.category.Put? ==> r.category == u.category.value
    ensures u.description.Keep? ==> r.description == t.description
    ensures u.description.Put? ==> r.description == u.description.value
    ensures u.metadata.Keep? ==> r.metadata == t.metadata
    ensures u.metadata.Put? ==> r.metadata == u.metadata.value
  {
    var spread := t.(
      category := Merge(u.category, t.category),
      description := Merge(u.description, t.description),
      updatedAt := Merge(u.updatedAt, t.updatedAt),
      metadata := Merge(u.metadata, t.metadata));
    spread.(updatedAt := Some(now))
  }

  /** `updateTag`: reject a name that is not a key, else merge the update into the stored tag. */
  function Update(tags: TagMap, name: string, u: TagUpdate, now: Timestamp): (r: Result<TagMap, StoreError>)
    ensures r.Failure? <==> name !in tags
    ensures r.Failure? ==> r.error == NotFound(name)
    ensures r.Success? ==> r.value.Keys == tags.Keys
    ensures r.Success? ==> r.value[name].name == tags[name].name && r.value[name].createdAt == tags[name].createdAt
    ensures r.Success? ==> r.value[name].updatedAt == Some(now)
    ensures r.Success? ==> r.value[name] == Apply(tags[name], u, now)
    ensures r.Success? ==> forall k :: k in tags && k != name ==> r.value[k] == tags[k]
  {
    if name !in tags then Failure(NotFound(name)) else Success(tags[name := Apply(tags[name], u, now)])
  }

  /** What a key operation reports to its caller: nothing on success, its error otherwise. */
  function OutcomeOf(r: Result<TagMap, StoreError>): (o: Outcome<StoreError>)
    ensures o.Pass? <==> r.Success?
    ensures o.Fail? ==> o.error == r.error
  {
    match r
    case Success(_) => Pass
    case Failure(e) => Fail(e)
  }

  /** The cache and disk after a key operation on a loaded database: saved on success, untouched on failure. */
  function Commit(l: Loaded, r: Result<TagMap, StoreError>, path: string, now: Timestamp): (c: Loaded)
    ensures r.Success? ==> c.db.tags == r.value && c.db.meta == l.db.meta && c.db.lastUpdated == now
    ensures r.Success? ==> path in c.files && c.files[path] == c.db
    ensures r.Failure? ==> c == l
  {
    match r
    case Failure(_) => l
    case Success(tags) => Save(l.db.(tags := tags), l.files, path, now)
  }

  /** The operations keep every key naming its own tag. */
  lemma OperationsKeepWellKeyed(tags: TagMap, t: Tag, name: string, u: TagUpdate, now: Timestamp)
    requires WellKeyed(tags)
    ensures Add(tags, t).Success? ==> WellKeyed(Add(tags, t).value)
    ensures Delete(tags, name).Success? ==> WellKeyed(Delete(tags, name).value)
    ensures Update(tags, name, u, now).Success? ==> WellKeyed(Update(tags, name, u, now).value)
  {
  }

  /** A second add of the same name always fails: at most one tag per name. */
  lemma AddTwiceFails(tags: TagMap, t: Tag, t': Tag)
    requires Add(tags, t).Success?
    requires t'.name == t.name
    ensures Add(Add(tags, t).value, t') == Failure(AlreadyExists(t.name))
  {
  }

  /** After a successful add the tag is listed, under no category filter and under its own. */
  lemma AddShowsInList(tags: TagMap, t: Tag)
    requires t.name !in tags
    ensures t in List(Add(tags, t).value, None)
    ensures t.category.Some? ==> t in List(Add(tags, t).value, t.category)
  {
    assert Add(tags, t).value[t.name] == t;
  }

  /** After a successful delete on a well-keyed collection no listed tag carries the deleted name. */
  lemma DeleteRemovesFromList(tags: TagMap, name: string, filter: Option<string>)
    requires WellKeyed(tags) && name in tags
    ensures forall t :: t in List(Delete(tags, name).value, filter) ==> t.name != name
  {
    var rest := Delete(tags, name).value;
    forall t | t in List(rest, filter)
      ensures t.name != name
    {
      var k :| k in rest && rest[k] == t;
      assert tags[k] == t;
    }
  }

  /** Without the invariant a deleted name can stay listed: another key may hold the same tag. */
  lemma DeleteNeedsWellKeyed(created: Timestamp)
    ensures var t := Tag("x", None, None, created, None, None);
      t in List(Delete(map["x" := t, "y" := t], "x").value, None)
  {
    var t := Tag("x", None, None, created, None, None);
    var rest := Delete(map["x" := t, "y" := t], "x").value;
    assert rest["y"] == t;
  }

  /** A load yields a well-keyed database when its source (the cache, else the file) is well-keyed. */
  ghost predicate LoadsWellKeyed(cache: Option<Database>, files: Files, path: string)
  {
    if cache.Some? then WellKeyed(cache.value.tags) else path in files ==> WellKeyed(files[path].tags)
  }

  /** Loading from a well-keyed source, or bootstrapping, gives a well-keyed database. */
  lemma LoadWellKeyed(cache: Option<Database>, files: Files, path: string, now: Timestamp)
    requires LoadsWellKeyed(cache, files, path)
    ensures WellKeyed(Load(cache, files, path, now).db.tags)
  {
  }

  /** Deleting what was just added restores the collection. */
  lemma DeleteUndoesAdd(tags: TagMap, t: Tag)
    requires t.name !in tags
    ensures Delete(Add(tags, t).value, t.name) == Success(tags)
  {
    assert Add(tags, t).value - {t.name} == tags;
  }

  /** Adding back what was just deleted restores a well-keyed collection. */
  lemma AddUndoesDelete(tags: TagMap, name: string)
    requires WellKeyed(tags)
    requires name in tags
    ensures Add(Delete(tags, name).value, tags[name]) == Success(tags)
  {
    assert Delete(tags, name).value[name := tags[name]] == tags;
  }

  /** Updating twice with the same fields at the same time is updating once. */
  lemma UpdateIdempotent(tags: TagMap, name: string, u: TagUpdate, now: Timestamp)
    requires name in tags
    ensures Update(Update(tags, name, u, now).value, name, u, now) == Update(tags, name, u, now)
  {
    var t := Apply(tags[name], u, now);
    assert Apply(t, u, now) == t by {
      assert Merge(u.category, t.category) == t.category;
      assert Merge(u.description, t.description) == t.description;
      assert Merge(u.metadata, t.metadata) == t.metadata;
    }
    var once := tags[name := t];
    assert once[name := Apply(t, u, now)] == once;
  }

  /** A supplied `updatedAt` is always overridden by the current time. */
  lemma UpdateIgnoresSuppliedTime(t: Tag, u: TagUpdate, now: Timestamp, v: Field<Timestamp>)
    ensures Apply(t, u.(updatedAt := v), now) == Apply(t, u, now)
  {
  }

  // ---------------------------------------------------------------- queries

  /** A category filter admits a tag when it is absent or empty, or equals the tag's category. */
  predicate CategoryAdmits(filter: Option<string>, t: Tag)
  {
    filter.None? || filter.value == "" || t.category == filter
  }

  /** A lower-cased query matches a tag's lower-cased name or, when present, its lower-cased description. */
  predicate QueryMatches(normalized: string, t: Tag)
  {
    || Contains(Lower(t.name), normalized)
    || (t.description.Some? && Contains(Lower(t.description.value), normalized))
  }

  /** `getAllTags(category)`. */
  function List(tags: TagMap, filter: Option<string>): (r: set<Tag>)
    ensures r <= tags.Values
    ensures filter.Some? && filter.value != "" ==> forall t :: t in r ==> t.category == filter
  {
    set t | t in tags.Values && CategoryAdmits(filter, t)
  }

  /** `searchTags(query, category)`. */
  function Search(tags: TagMap, query: string, filter: Option<string>): (r: set<Tag>)
    ensures r <= List(tags, filter)
    ensures query == "" ==> r == List(tags, filter)
  {
    var normalized := Lower(query);
    set t | t in tags.Values && QueryMatches(normalized, t) && CategoryAdmits(filter, t)
  }

  /** Without a category, or with the empty one, every stored tag is listed. */
  lemma ListUnfiltered(tags: TagMap)
    ensures List(tags, None) == tags.Values
    ensures List(tags, Some("")) == tags.Values
  {
  }

  /** With a non-empty category exactly the tags of that category are listed. */
  lemma ListByCategory(tags: TagMap, c: string, t: Tag)
    requires c != ""
    ensures t in List(tags, Some(c)) <==> (exists k :: k in tags && tags[k] == t) && t.category == Some(c)
  {
  }

  /** Search results are always among the listed tags of the same filter, and so among all tags. */
  lemma SearchWithinList(tags: TagMap, query: string, filter: Option<string>)
    ensures Search(tags, query, filter) <= List(tags, filter) <= List(tags, None)
  {
  }

  /** The empty query matches every tag. */
  lemma SearchEmptyQuery(tags: TagMap, filter: Option<string>)
    ensures Search(tags, "", filter) == List(tags, filter)
  {
    forall t | t in List(tags, filter)
      ensures t in Search(tags, "", filter)
    {
      ContainsEmpty(Lower(t.name));
    }
  }

  /** The category filter and the query combine by intersection. */
  lemma SearchIsIntersection(tags: TagMap, query: string, c: string)
    ensures Search(tags, query, Some(c)) == Search(tags, query, None) * List(tags, Some(c))
  {
  }

  /** The search does not depend on the case of the query. */
  lemma SearchIgnoresQueryCase(tags: TagMap, query: string, filter: Option<string>)
    ensures Search(tags, Lower(query), filter) == Search(tags, query, filter)
  {
    LowerIdempotent(query);
  }

  /** A tag without a description is found only through its name. */
  lemma SearchWithoutDescription(tags: TagMap, query: string, filter: Option<string>, t: Tag)
    requires t in tags.Values && t.description.None?
    ensures t in Search(tags, query, filter) <==> CategoryAdmits(filter, t) && Contains(Lower(t.name), Lower(query))
  {
  }

  /** Search membership spelled out with explicit occurrence positions instead of `includes`. */
  lemma SearchByOccurrence(tags: TagMap, query: string, filter: Option<string>, t: Tag)
    ensures t in Search(tags, query, filter) <==>
      && t in tags.Values
      && CategoryAdmits(filter, t)
      && (|| (exists i :: OccursAt(Lower(t.name), Lower(query), i))
          || (t.description.Some? && exists i :: OccursAt(Lower(t.description.value), Lower(query), i)))
  {
    ContainsIff(Lower(t.name), Lower(query));
    if t.description.Some? {
      ContainsIff(Lower(t.description.value), Lower(query));
    }
  }

  /** Two tags, one matching the query by name and one by description; the category narrows to one. */
  lemma SearchExample(created: Timestamp)
    ensures var a := Tag("alpha-model", Some("llm"), None, created, None, None);
      var b := Tag("beta", Some("tool"), Some("alpha variant"), created, None, None);
      var tags := map["alpha-model" := a, "beta" := b];
      && Search(tags, "alpha", None) == {a, b}
      && Search(tags, "alpha", Some("llm")) == {a}
  {
    var a := Tag("alpha-model", Some("llm"), None, created, None, None);
    var b := Tag("beta", Some("tool"), Some("alpha variant"), created, None, None);
    var tags := map["alpha-model" := a, "beta" := b];
    LowerUnchanged("alpha");
    LowerUnchanged("alpha-model");
    LowerUnchanged("alpha variant");
    assert "alpha" <= "alpha-model";
    assert "alpha" <= "alpha variant";
    assert QueryMatches("alpha", a);
    assert QueryMatches("alpha", b);
    assert !CategoryAdmits(Some("llm"), b);
    assert tags["alpha-model"] == a && tags["beta"] == b;
    assert tags.Values == {a, b} by {
      forall v | v in tags.Values ensures v == a || v == b {
        var k :| k in tags && tags[k] == v;
      }
    }
  }

  // ---------------------------------------------------------------- key presence as written

  /** The names every plain JavaScript object inherits from `Object.prototype`. */
  const InheritedNames: set<string> := {
    "constructor", "hasOwnProperty", "isPrototypeOf", "propertyIsEnumerable",
    "toLocaleString", "toString", "valueOf", "__proto__",
    "__defineGetter__", "__defineSetter__", "__lookupGetter__", "__lookupSetter__"}

  /** `!!db.tags[name]` as written: the lookup also finds inherited properties, all of them truthy. */
  function ProbeAsWritten(tags: TagMap, name: string): bool
  {
    name in tags || name in InheritedNames
  }

  /** `addTag` as written: the duplicate check is the inherited-property probe. */
  function AddAsWritten(tags: TagMap, t: Tag): (r: Result<TagMap, StoreError>)
    ensures r.Failure? <==> ProbeAsWritten(tags, t.name)
    ensures r.Success? ==> r == Add(tags, t)
  {
    if ProbeAsWritten(tags, t.name) then Failure(AlreadyExists(t.name)) else Success(tags[t.name := t])
  }

  /** `deleteTag` as written: an inherited name passes the check, and `delete` of a key that is not there removes nothing. */
  function DeleteAsWritten(tags: TagMap, name: string): (r: Result<TagMap, StoreError>)
    ensures r.Failure? <==> !ProbeAsWritten(tags, name)
    ensures name in tags ==> r == Delete(tags, name)
  {
    if !ProbeAsWritten(tags, name) then Failure(NotFound(name)) else Success(tags - {name})
  }

  /** On an empty store the code as written refuses to add a tag named "toString" and reports deleting it as a success. */
  lemma InheritedNameCounterexample(created: Timestamp)
    ensures var empty: TagMap := map[];
      var t := Tag("toString", None, None, created, None, None);
      && ProbeAsWritten(empty, "toString") && "toString" !in empty
      && AddAsWritten(empty, t) == Failure(AlreadyExists("toString"))
      && Add(empty, t) == Success(map["toString" := t])
      && DeleteAsWritten(empty, "toString") == Success(empty)
      && Delete(empty, "toString") == Failure(NotFound("toString"))
  {
    var empty: TagMap := map[];
    assert empty - {"toString"} == empty;
  }

  /** The two checks differ only on inherited names that are not stored. */
  lemma AsWrittenAgreesOnOtherNames(tags: TagMap, t: Tag, name: string)
    ensures t.name !in InheritedNames ==> AddAsWritten(tags, t) == Add(tags, t)
    ensures name !in InheritedNames ==> DeleteAsWritten(tags, name) == Delete(tags, name)
  {
  }

  // ---------------------------------------------------------------- backup

  /** `${dbPath}.${timestamp}.backup` with the timestamp's colons and dots replaced by dashes. */
  function BackupPath(dbPath: string, now: Timestamp): (p: string)
    ensures |p| == |dbPath| + |now| + 8
    ensures dbPath < p
  {
    dbPath + "." + ReplaceSeparators(now) + ".backup"
  }

  /** The backup path extends the database path and so never overwrites the database file. */
  lemma BackupPathShape(dbPath: string, now: Timestamp)
    ensures var p := BackupPath(dbPath, now);
      && dbPath < p && p != dbPath
      && p[|dbPath|] == '.'
      && p[|p| - 7..] == ".backup"
      && p[|dbPath| + 1..|p| - 7] == ReplaceSeparators(now)
      && ':' !in p[|dbPath| + 1..|p| - 7] && '.' !in p[|dbPath| + 1..|p| - 7]
  {
  }

  /** Two backups collide exactly when their timestamps agree once separators are dashed. */
  lemma {:induction false} BackupPathsCollide(dbPath: string, t1: Timestamp, t2: Timestamp)
    ensures BackupPath(dbPath, t1) == BackupPath(dbPath, t2) <==> ReplaceSeparators(t1) == ReplaceSeparators(t2)
  {
    if BackupPath(dbPath, t1) == BackupPath(dbPath, t2) {
      BackupPathShape(dbPath, t1);
      BackupPathShape(dbPath, t2);
    }
  }

  /** The timestamp part of the backup name for an ISO timestamp. */
  lemma DashedTimestampExample()
    ensures ReplaceSeparators("2024-05-01T12:30:45.123Z") == "2024-05-01T12-30-45-123Z"
  {
    var ts := ReplaceSeparators("2024-05-01T12:30:45.123Z");
    assert forall i :: 0 <= i < 24 ==> ts[i] == Dash("2024-05-01T12:30:45.123Z"[i]);
  }

  /** The name produced for an ISO timestamp. */
  lemma BackupPathExample()
    ensures BackupPath("tags.json", "2024-05-01T12:30:45.123Z") == "tags.json.2024-05-01T12-30-45-123Z.backup"
  {
    DashedTimestampExample();
    assert "tags.json" + "." + "2024-05-01T12-30-45-123Z" + ".backup" == "tags.json.2024-05-01T12-30-45-123Z.backup";
  }
}
