/**
 * The tag store object: a database path, the cached database (null until the
 * first load) and the disk it reads and writes. Every method is specified by
 * the value-level functions of module Store.
 */
module Service {
  import opened Wrappers
  import opened Model
  import opened Store

  /** The disk: the documents stored under each path. Several stores may share one. */
  class FileSystem {
    var files: Files

    constructor (files: Files)
      ensures this.files == files
    {
      this.files := files;
    }
  }

  /** `TagService`: one database path, a lazily loaded cache, and the disk it persists to. */
  class TagService {
    const dbPath: string
    var db: Option<Database>
    const fs: FileSystem

    /**
     * `new TagService(customDbPath)`: an absent or empty custom path falls back to the default path
     * (which the caller computes from the home directory). Nothing is loaded yet.
     */
    constructor (customDbPath: Option<string>, defaultPath: string, fs: FileSystem)
      ensures dbPath == (if customDbPath.Some? && customDbPath.value != "" then customDbPath.value else defaultPath)
      ensures db == None && this.fs == fs
    {
      dbPath := if customDbPath.Some? && customDbPath.value != "" then customDbPath.value else defaultPath;
      db := None;
      this.fs := fs;
    }

    /** Memory and disk agree: the cached database is what the file holds. */
    ghost predicate Consistent()
      reads this, fs
    {
      db.Some? && dbPath in fs.files && fs.files[dbPath] == db.value
    }

    /** `saveDatabase`: fail when nothing is loaded, else refresh `lastUpdated` and write the whole document. */
    method SaveDatabase(now: Timestamp) returns (o: Outcome<StoreError>)
      modifies this, fs
      ensures old(db).None? ==> o == Fail(NotLoaded) && db == None && fs.files == old(fs.files)
      ensures old(db).Some? ==>
        var s := Save(old(db).value, old(fs.files), dbPath, now);
        o == Pass && db == Some(s.db) && fs.files == s.files
      ensures o.Pass? ==> Consistent()
    {
      if db.None? {
        return Fail(NotLoaded);
      }
      var stamped := db.value.(lastUpdated := now);
      db := Some(stamped);
      fs.files := fs.files[dbPath := stamped];
      o := Pass;
    }

    /** `loadDatabase`: the cache if set; else the file; else a fresh database, saved at once. */
    method LoadDatabase(now: Timestamp) returns (d: Database)
      modifies this, fs
      ensures var l := Load(old(db), old(fs.files), dbPath, now);
        d == l.db && db == Some(d) && fs.files == l.files
      ensures old(db).Some? ==> d == old(db).value && fs.files == old(fs.files)
      ensures old(db).None? ==> Consistent()
    {
      if db.Some? {
        return db.value;
      }
      if dbPath in fs.files {
        db := Some(fs.files[dbPath]);
      } else {
        db := Some(Fresh(now));
        var saved := SaveDatabase(now);
      }
      d := db.value;
    }

    /** `tagExists`: whether the name is a key of the loaded database. */
    method TagExists(name: string, now: Timestamp) returns (b: bool)
      modifies this, fs
      ensures var l := Load(old(db), old(fs.files), dbPath, now);
        db == Some(l.db) && fs.files == l.files && (b <==> name in l.db.tags)
    {
      var d := LoadDatabase(now);
      b := name in d.tags;
    }

    /** `getAllTags`: the stored tags admitted by the category filter; nothing is changed beyond the load. */
    method GetAllTags(category: Option<string>, now: Timestamp) returns (r: set<Tag>)
      modifies this, fs
      ensures var l := Load(old(db), old(fs.files), dbPath, now);
        db == Some(l.db) && fs.files == l.files && r == List(l.db.tags, category)
    {
      var d := LoadDatabase(now);
      r := List(d.tags, category);
    }

    /** `searchTags`: the stored tags matching the query, case-insensitively, and the category filter. */
    method SearchTags(query: string, category: Option<string>, now: Timestamp) returns (r: set<Tag>)
      modifies this, fs
      ensures var l := Load(old(db), old(fs.files), dbPath, now);
        db == Some(l.db) && fs.files == l.files && r == Search(l.db.tags, query, category)
    {
      var d := LoadDatabase(now);
      r := Search(d.tags, query, category);
    }

    /** `addTag`: refuse a name that is already a key, else store the tag under its name and save. */
    method AddTag(t: Tag, now: Timestamp) returns (o: Outcome<StoreError>)
      modifies this, fs
      ensures var l := Load(old(db), old(fs.files), dbPath, now);
        var r := Add(l.db.tags, t);
        var c := Commit(l, r, dbPath, now);
        o == OutcomeOf(r) && db == Some(c.db) && fs.files == c.files
      ensures o.Pass? ==> Consistent() && t.name in db.value.tags && db.value.tags[t.name] == t
      ensures LoadsWellKeyed(old(db), old(fs.files), dbPath) ==> WellKeyed(db.value.tags)
    {
      var d := LoadDatabase(now);
      if t.name in d.tags {
        return Fail(AlreadyExists(t.name));
      }
      db := Some(d.(tags := d.tags[t.name := t]));
      var saved := SaveDatabase(now);
      o := Pass;
    }

    /** `deleteTag`: refuse a name that is not a key, else remove it and save. */
    method DeleteTag(name: string, now: Timestamp) returns (o: Outcome<StoreError>)
      modifies this, fs
      ensures var l := Load(old(db), old(fs.files), dbPath, now);
        var r := Delete(l.db.tags, name);
        var c := Commit(l, r, dbPath, now);
        o == OutcomeOf(r) && db == Some(c.db) && fs.files == c.files
      ensures o.Pass? ==> Consistent() && name !in db.value.tags
      ensures LoadsWellKeyed(old(db), old(fs.files), dbPath) ==> WellKeyed(db.value.tags)
    {
      var d := LoadDatabase(now);
      if name !in d.tags {
        return Fail(NotFound(name));
      }
      db := Some(d.(tags := d.tags - {name}));
      var saved := SaveDatabase(now);
      o := Pass;
    }

    /** `updateTag`: refuse a name that is not a key, else merge the update into the stored tag, stamp it and save. */
    method UpdateTag(name: string, u: TagUpdate, now: Timestamp) returns (o: Outcome<StoreError>)
      modifies this, fs
      ensures var l := Load(old(db), old(fs.files), dbPath, now);
        var r := Update(l.db.tags, name, u, now);
        var c := Commit(l, r, dbPath, now);
        o == OutcomeOf(r) && db == Some(c.db) && fs.files == c.files
      ensures o.Pass? ==> Consistent() && name in db.value.tags && db.value.tags[name].updatedAt == Some(now)
      ensures LoadsWellKeyed(old(db), old(fs.files), dbPath) ==> WellKeyed(db.value.tags)
    {
      var d := LoadDatabase(now);
      if name !in d.tags {
        return Fail(NotFound(name));
      }
      db := Some(d.(tags := d.tags[name := Apply(d.tags[name], u, now)]));
      var saved := SaveDatabase(now);
      o := Pass;
    }

    /**
     * `backupDatabase`: load (so that the file exists), then copy the database file to the
     * timestamped backup path. The copy fails when the file is missing.
     */
    method BackupDatabase(now: Timestamp) returns (r: Result<string, StoreError>)
      modifies this, fs
      ensures var l := Load(old(db), old(fs.files), dbPath, now);
        var p := BackupPath(dbPath, now);
        db == Some(l.db)
        && (dbPath in l.files ==> r == Success(p) && fs.files == l.files[p := l.files[dbPath]])
        && (dbPath !in l.files ==> r == Failure(BackupFailed(dbPath)) && fs.files == l.files)
      ensures r.Success? ==> r.value != dbPath && dbPath in fs.files && r.value in fs.files
                             && fs.files[r.value] == fs.files[dbPath]
    {
      var d := LoadDatabase(now);
      var p := BackupPath(dbPath, now);
      if dbPath !in fs.files {
        return Failure(BackupFailed(dbPath));
      }
      BackupPathShape(dbPath, now);
      fs.files := fs.files[p := fs.files[dbPath]];
      r := Success(p);
    }
  }

  /**
   * Two stores bound to the same path: each loads, each adds a different tag and saves.
   * The second save writes its own cached copy and the first tag is lost from disk.
   */
  method LostUpdate(path: string, a: Tag, b: Tag, now: Timestamp) returns (fs: FileSystem)
    requires a.name != b.name
    ensures path in fs.files
    ensures b.name in fs.files[path].tags && a.name !in fs.files[path].tags
  {
    fs := new FileSystem(map[]);
    var first := new TagService(Some(path), path, fs);
    var second := new TagService(Some(path), path, fs);
    var seen := first.TagExists(a.name, now);
    seen := second.TagExists(b.name, now);
    var ok := first.AddTag(a, now);
    assert a.name in fs.files[path].tags;
    ok := second.AddTag(b, now);
  }
}
