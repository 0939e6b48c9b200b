# Tag store of ollama-tag-cli, modelled in Dafny

The project models the tag store at the core of `ollama-tag-cli`: a `TagService` object that
owns one JSON database document, stored under a fixed path. Its two fields are `dbPath` and `db`,
which is the cached `TagsDatabase` or null. The service loads the document lazily and caches it.
A missing file is bootstrapped as an empty database, which is written at once. The service adds,
deletes and updates tags by key and then writes the whole document back. It also answers two
read-only queries, a category listing and a case-insensitive search, and builds the path of a
timestamped backup copy.

Layout:

- `wrappers.dfy`: `Option`, `Result` and `Outcome`. These stand for optional properties, null
  references and thrown errors.
- `model.dfy`: the `Tag` and `Database` records of `src/models/tag.ts`. The `WellKeyed` invariant
  says every key names its own tag.
- `strings.dfy`: the JavaScript string built-ins the store uses. These are `toLowerCase`
  (ASCII only), `includes`, and `replace(/[:.]/g, '-')`.
- `store.dfy`: the behaviour of every operation on values. `Load` and `Save` act on the cached
  database and the disk. `Add`, `Delete` and `Update` act on the tag map. `List`, `Search` and
  `BackupPath` are the queries and the backup name. The lemmas state the store's properties.
- `service.dfy`: the class `TagService`, whose methods update its `db` field and the shared
  `FileSystem` in place. Each method is specified by the `store.dfy` function it implements.

The disk is a `FileSystem` object whose `files` map a path to the document stored there. Saving
means `files[dbPath] := db`. Several services may share one `FileSystem`. The clock is an input:
each public method takes the `now` timestamp as a parameter.

Where the declared types and doc comments of the source and its code disagree, the model
follows the code, with one exception: key presence. The code tests presence with a property
lookup that also sees inherited object members; the store here uses an own-key test, and the
code as written is modelled beside it (see "## Findings"). Elsewhere:

- A category filter given as the empty string is no filter at all. The code tests the filter's
  truthiness, so `getAllTags("")` and `searchTags(q, "")` return every matching tag.
- An empty custom database path also falls back to the default path (`customDbPath || ...`).

## Model

| member | source | states |
|---|---|---|
| `Model.WellKeyedLookup` | src/models/tag.ts:45-48 | in a collection indexed by name, a stored tag is found again under its own name |
| `Model.WellKeyedByValues` | src/models/tag.ts:10-13 | because the name is the unique key, the set of stored tags determines the whole collection |
| `Strings.Lower` | src/utils/tag-service.ts:187 | lower-casing keeps the length, leaves no upper-case letter, maps each upper-case letter to its lower-case letter and keeps every other character |
| `Strings.LowerIdempotent` | src/utils/tag-service.ts:192-193 | lower-casing an already lower-cased string changes nothing |
| `Strings.LowerUnchanged` | src/utils/tag-service.ts:192 | a string without upper-case letters is its own lower-cased form |
| `Strings.Contains` | src/utils/tag-service.ts:192-193 | `includes` never finds a query longer than the string; `Strings.ContainsIff` gives its meaning by position |
| `Strings.ContainsIff` | src/utils/tag-service.ts:192-193 | `includes` holds exactly when the query occurs at some position of the string |
| `Strings.ContainsEmpty` | src/utils/tag-service.ts:192 | the empty query is included in every string |
| `Strings.ReplaceSeparators` | src/utils/tag-service.ts:212 | the result has the same length and no colon or dot; each colon or dot becomes a dash and every other character stays in place |
| `Store.Save` | src/utils/tag-service.ts:70-87 | a save stamps `lastUpdated` with the current time, keeps tags and meta, writes exactly that document to the database path, adds no other file and leaves every other file as it was |
| `Store.Load` | src/utils/tag-service.ts:32-65 | a load never rewrites an existing file and touches no other path; a cached database is returned as it is; after a first load the file holds the loaded database |
| `Store.LoadCached` | src/utils/tag-service.ts:33-35 | once a database is cached, loading returns it and does not read or write the disk, even if the file has changed |
| `Store.LoadReadsFile` | src/utils/tag-service.ts:42-46 | the first load of an existing file returns its contents and writes nothing |
| `Store.LoadBootstraps` | src/utils/tag-service.ts:47-60 | the first load without a file yields empty tags, meta `{1.0.0, ollama-tag-cli}` and the current time, and writes that database to the path |
| `Store.LoadSettles` | src/utils/tag-service.ts:32-61 | after a first load the file holds the loaded database, and every later load returns it unchanged |
| `Store.LoadWellKeyed` | src/models/tag.ts:45-48 | a load gives a database whose keys name their tags when the cache, or else the file read, already has that property; a bootstrapped database is empty and so has it |
| `Store.Add` | src/utils/tag-service.ts:120-133 | add fails with AlreadyExists exactly when the name is already a key; on success the keys grow by that name, it maps to the tag unchanged and every other entry is kept |
| `Store.Delete` | src/utils/tag-service.ts:139-152 | delete fails with NotFound exactly when the name is absent; on success only that key is removed and every other entry is kept |
| `Store.Apply` | src/utils/tag-service.ts:168-172 | the merged tag keeps `name` and `createdAt`, takes each supplied field from the update and keeps each unsupplied one, and has `updatedAt` set to the current time |
| `Store.Update` | src/utils/tag-service.ts:159-176 | update fails with NotFound exactly when the name is absent; on success the keys are the same, the stored tag is the stored one merged with the update by `Store.Apply` (name and creation time kept, supplied fields overwritten, the rest kept, stamped with the current time), and no other key changes |
| `Store.Commit` | src/utils/tag-service.ts:129-132 | after a successful key operation the new tags are cached with the old meta and the current time and are the document on disk; after a failed one neither the cache nor the disk changes |
| `Store.OperationsKeepWellKeyed` | src/models/tag.ts:45-48 | add, delete and update all keep every key naming its own tag |
| `Store.AddTwiceFails` | src/utils/tag-service.ts:123-126 | a second add with a name just added always fails: at most one tag per name |
| `Store.AddShowsInList` | src/utils/tag-service.ts:120-133 | after a successful add the tag is listed without a filter and under its own category |
| `Store.DeleteRemovesFromList` | src/utils/tag-service.ts:139-152 | after a successful delete on a collection whose keys name their tags, no listed tag carries the deleted name |
| `Store.DeleteNeedsWellKeyed` | src/utils/tag-service.ts:139-152 | when two keys hold the same tag, deleting one key leaves that tag listed, so the previous lemma needs its invariant |
| `Store.DeleteUndoesAdd` | src/utils/tag-service.ts:147-148 | deleting the tag just added restores the previous collection |
| `Store.AddUndoesDelete` | src/utils/tag-service.ts:128-129 | adding back the tag just deleted restores a well-keyed collection |
| `Store.UpdateIdempotent` | src/utils/tag-service.ts:167-172 | applying the same update twice at the same time is applying it once |
| `Store.UpdateIgnoresSuppliedTime` | src/utils/tag-service.ts:171 | an `updatedAt` supplied in the update never reaches the stored tag |
| `Store.List` | src/utils/tag-service.ts:104-114 | the listing holds only stored tags, and with a non-empty category only tags of that category; `Store.ListUnfiltered` and `Store.ListByCategory` give both directions |
| `Store.ListUnfiltered` | src/utils/tag-service.ts:106-113 | with no category, or the empty one, the listing is every stored tag |
| `Store.ListByCategory` | src/utils/tag-service.ts:109-110 | with a non-empty category the listing holds exactly the stored tags whose category equals it |
| `Store.SearchWithinList` | src/utils/tag-service.ts:184-201 | search results are among the listed tags for the same filter, and so among all tags |
| `Store.SearchEmptyQuery` | src/utils/tag-service.ts:187-194 | the empty query matches every tag the filter admits |
| `Store.SearchIsIntersection` | src/utils/tag-service.ts:194-199 | with a category, the result is the unfiltered search result intersected with that category's listing |
| `Store.SearchIgnoresQueryCase` | src/utils/tag-service.ts:187 | the search gives the same result for a query and its lower-cased form |
| `Store.SearchWithoutDescription` | src/utils/tag-service.ts:193 | a tag without a description is found only through its name |
| `Store.Search` | src/utils/tag-service.ts:184-201 | the result lies within the listing for the same filter, and the empty query gives that whole listing; `Store.SearchByOccurrence` states membership exactly |
| `Store.SearchByOccurrence` | src/utils/tag-service.ts:190-200 | a tag is found exactly when it is stored, admitted by the filter, and the lower-cased query occurs at some position of its lower-cased name or present description |
| `Store.SearchExample` | src/utils/tag-service.ts:184-201 | for `alpha-model` (category llm) and `beta` (description "alpha variant", category tool), searching "alpha" finds both and with category llm finds only the first |
| `Store.AddAsWritten` | src/utils/tag-service.ts:124-129 | add as written fails exactly when the truthiness probe `!!db.tags[name]` reports the name, which it does for every stored name and every inherited `Object.prototype` name; otherwise it agrees with `Add` |
| `Store.DeleteAsWritten` | src/utils/tag-service.ts:143-148 | delete as written fails exactly when the probe misses the name, and agrees with `Delete` on stored names |
| `Store.InheritedNameCounterexample` | src/utils/tag-service.ts:124-148 | on an empty store the code as written refuses to add a tag named "toString" and reports deleting it as a success; the own-key model does the opposite |
| `Store.AsWrittenAgreesOnOtherNames` | src/utils/tag-service.ts:124-148 | for names that are not inherited, the code as written and the own-key model agree |
| `Store.BackupPath` | src/utils/tag-service.ts:212-213 | the backup path extends the database path by exactly the timestamp's length plus eight characters (two dots and `backup`) |
| `Store.BackupPathShape` | src/utils/tag-service.ts:211-213 | the backup path is the database path, a dot, the dashed timestamp, then `.backup`; it differs from the database path and its timestamp part has no colon or dot |
| `Store.BackupPathsCollide` | src/utils/tag-service.ts:212-213 | two backups get the same path exactly when their timestamps agree once separators are dashed |
| `Store.DashedTimestampExample` | src/utils/tag-service.ts:212 | `2024-05-01T12:30:45.123Z` becomes `2024-05-01T12-30-45-123Z` once its colons and dots are dashed |
| `Store.BackupPathExample` | src/utils/tag-service.ts:212-213 | `tags.json` at `2024-05-01T12:30:45.123Z` is backed up to `tags.json.2024-05-01T12-30-45-123Z.backup` |
| `Service.TagService.constructor` | src/utils/tag-service.ts:23-26 | the path is the custom path when it is present and non-empty, otherwise the default; nothing is loaded |
| `Service.TagService.SaveDatabase` | src/utils/tag-service.ts:70-87 | fails with "Database not loaded" and changes nothing when no database is cached; otherwise it stamps the cache and writes it to the database path, so memory and disk agree |
| `Service.TagService.LoadDatabase` | src/utils/tag-service.ts:32-65 | the result, the new cache and the disk are those of `Load`; a cached database is returned without touching the disk; after a first load memory and disk agree |
| `Service.TagService.TagExists` | src/utils/tag-service.ts:94-97 | loads, then answers whether the name is a key, and writes nothing beyond the load |
| `Service.TagService.GetAllTags` | src/utils/tag-service.ts:104-114 | loads, then returns `List` of the loaded tags; the cache and the disk are only what the load made them |
| `Service.TagService.SearchTags` | src/utils/tag-service.ts:184-201 | loads, then returns `Search` of the loaded tags; the cache and the disk are only what the load made them |
| `Service.TagService.AddTag` | src/utils/tag-service.ts:120-133 | loads, applies `Add` and commits it: on success the tag is stored under its name and memory and disk agree; on failure neither changes beyond the load; when the cache, or else the file read, has keys naming their tags, so does the new cache |
| `Service.TagService.DeleteTag` | src/utils/tag-service.ts:139-152 | loads, applies `Delete` and commits it: on success the name is gone and memory and disk agree; on failure neither changes beyond the load; when the cache, or else the file read, has keys naming their tags, so does the new cache |
| `Service.TagService.UpdateTag` | src/utils/tag-service.ts:159-176 | loads, applies `Update` and commits it: on success the tag carries the current time and memory and disk agree; on failure neither changes beyond the load; when the cache, or else the file read, has keys naming their tags, so does the new cache |
| `Service.TagService.BackupDatabase` | src/utils/tag-service.ts:207-222 | loads, then copies the database file as it is on disk to the backup path and returns that path; the database file is untouched; without a file the copy fails and nothing is written |
| `Service.LostUpdate` | src/utils/tag-service.ts:32-35 | two services on one path that each load, then each add a different tag, leave only the second tag on disk: the first add is lost |

## Left out

- File-system failures are not modelled. A failed `ensureDirectory`, `readFile`, `writeFile` or
  `JSON.parse` and its wrapped "Failed to load/save tag database" error are left out; only the
  backup copy's failure on a missing file is modelled. The disk holds `Database` values, so JSON
  text, its parsing and documents of another shape are outside the model.
- The default path built from `os.homedir()` is not computed: the constructor takes it as a
  parameter.
- The wall clock is an input. Each public method takes one timestamp and uses it for every clock
  read inside that call. The source reads the clock separately for `updatedAt`, for
  `lastUpdated` and for the backup name, so the model does not distinguish those readings.
- `Store.Update`: timestamps are opaque strings, so "the new `updatedAt` is no earlier than the
  previous `lastUpdated`" is not stated.
- `Strings.Lower`: `toLowerCase` is modelled for ASCII letters only; Unicode case mapping is
  left out.
- `Service.TagService.GetAllTags` and `Service.TagService.SearchTags` return sets. The
  insertion order of `Object.values` and the array form of the result are left out.
- `metadata` is an opaque optional `map<string, string>`; values of other JSON types are not
  distinguished.
- async and Promise sequencing are left out; every call runs to completion before the next one.
  Two services sharing one path are not coordinated, and `Service.LostUpdate` shows the
  resulting lost update rather than preventing it.
- Objects are modelled as values. In the source, `addTag` stores the caller's own object and
  `getAllTags` and `searchTags` return the cached objects themselves, so a caller that later
  mutates such an object changes the cache, and the next save writes the change; renaming it
  that way breaks the rule that each key names its tag. The model has no such aliasing. Together
  with the declared update type (next line), this is why `Store.OperationsKeepWellKeyed` needs no
  further condition.
- `Store.Apply`: the update is taken at its declared type, whose fields exclude `name` and
  `createdAt`. At run time the spread `...updates` copies every own property of the argument,
  and TypeScript accepts a wider object (for instance a whole `Tag` held in a variable) for that
  parameter. Such an argument would overwrite `name` and `createdAt` and leave the key naming a
  different tag. Extra properties of the argument are not modelled.
- Keys naming their tags is kept only from a well-keyed start: a database file written by other
  means, whose keys do not name their tags, is loaded as it is (`Store.LoadWellKeyed` needs a
  well-keyed source), and `Store.DeleteNeedsWellKeyed` shows what delete then fails to promise.
- The texts of the thrown errors are not modelled; the error kinds are the `StoreError`
  constructors (not loaded, already exists, not found, backup copy failed), and the backup
  failure carries the database path rather than the file library's message.
- The store uses an own-key test for presence (see Findings). `updateTag` as written on an
  inherited name such as "toString" would store a record without `name` or `createdAt`; this
  path of the code as written is not modelled.
- `src/utils/file-utils.ts` and the command-line layer (`src/index.ts`, `src/commands/*.ts`) are
  not part of this model. That layer does the blank-name and blank-query checks, the
  confirmation prompts and the output.

## Findings

| source | as written | input that shows it | evidently intended | confidence | as-written member | corrected member |
|---|---|---|---|---|---|---|
| src/utils/tag-service.ts:96,124,143,163 | presence is tested as `!!db.tags[name]`, a property lookup on a plain object, which also finds the truthy members inherited from `Object.prototype` | on an empty store, `addTag({name: "toString", ...})` throws `Tag "toString" already exists`, and `deleteTag("toString")` succeeds and rewrites the file | presence means the name is an own key of `tags` | high; not executed | `Store.ProbeAsWritten`, `Store.AddAsWritten`, `Store.DeleteAsWritten`, with `Store.InheritedNameCounterexample` | `Store.Add`, `Store.Delete` (used by `Service.TagService`) |
