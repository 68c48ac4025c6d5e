/**
 * The façade of package storage (internal/app/storage/storage.go):
 * ShortURLStorage picks one backend at start-up and puts link generation
 * in front of it.
 */
module Storage {
  import opened Optional
  import opened Bytes
  import opened ErrorUtil
  import opened StorageTypes
  import opened ShortURLGenerator
  import InMemory
  import InFile
  import Database

  /** The backend behind the StorageOperations interface value. */
  datatype Backend =
    | Memory(mem: InMemory.InMemoryStorage)
    | File(file: InFile.FileStorage)
    | DB(db: Database.DBStorage)
  {
    /** The object whose state the backend's operations change. */
    function Obj(): object
    {
      match this
      case Memory(m) => m
      case File(f) => f
      case DB(d) => d
    }
  }

  datatype BackendKind = MemoryKind | FileKind | DatabaseKind

  /**
   * NewStorage's choice. `dbInit` is the error NewDBStorage returned when it
   * was asked (its CreateTable); it matters only when a DSN is configured.
   */
  function SelectBackend(cfg: Config, dbInit: Option<Error>): (k: BackendKind)
    ensures k == DatabaseKind <==> cfg.databaseDSN != "" && dbInit == None
    ensures k == FileKind <==> !(cfg.databaseDSN != "" && dbInit == None) && cfg.fileStoragePath != ""
    ensures k == MemoryKind <==> !(cfg.databaseDSN != "" && dbInit == None) && cfg.fileStoragePath == ""
  {
    if cfg.databaseDSN != "" && dbInit == None then DatabaseKind
    else if cfg.fileStoragePath != "" then FileKind
    else MemoryKind
  }

  function KindOf(b: Backend): BackendKind
  {
    match b
    case Memory(_) => MemoryKind
    case File(_) => FileKind
    case DB(_) => DatabaseKind
  }

  /**
   * What CreateShortURL reports once the backend answered: a conflict keeps
   * the short link and reports ErrUniqueLink itself, any other error loses it.
   */
  function Classify(code: string, err: Option<Error>): (r: (string, Option<Error>))
    ensures IsErr(err, ErrUniqueLink) ==> r == (code, Some(ErrUniqueLink))
    ensures err.Some? && !IsErr(err, ErrUniqueLink) ==> r == ("", err)
    ensures err == None ==> r == (code, None)
  {
    if IsErr(err, ErrUniqueLink) then (code, Some(ErrUniqueLink))
    else if err.Some? then ("", err)
    else (code, None)
  }

  /** A batch item after the first loop of CreateListShortURL: ShortLink is BaseURL/code. */
  function Stamped(codec: Codec, baseURL: string, l: ShortURLByUser): (r: ShortURLByUser)
    requires Generable(codec, l.initialLink, 0)
  {
    SetShortLink(l, FullLink(baseURL, GenerateShortLink(l.initialLink, 0, codec).0))
  }

  /**
   * Every item the first loop of CreateListShortURL reaches from i on can be
   * sliced: each one before the first generation error, and that one.
   */
  predicate GenerableUntilFailure(codec: Codec, links: seq<ShortURLByUser>, i: nat)
    requires i <= |links|
    decreases |links| - i
  {
    || i == |links|
    || (&& Generable(codec, links[i].initialLink, 0)
        && (GenerateShortLink(links[i].initialLink, 0, codec).1.Some? || GenerableUntilFailure(codec, links, i + 1)))
  }

  /** The index of the first item whose generation fails, at or after i; -1 when none does. */
  function FirstFailure(codec: Codec, links: seq<ShortURLByUser>, i: nat): (r: int)
    requires i <= |links| && GenerableUntilFailure(codec, links, i)
    ensures r == -1 || i <= r < |links|
    ensures forall j :: i <= j < |links| && (r == -1 || j <= r) ==> Generable(codec, links[j].initialLink, 0)
    ensures r == -1 ==> forall j :: i <= j < |links| ==> GenerateShortLink(links[j].initialLink, 0, codec).1 == None
    ensures r >= 0 ==> GenerateShortLink(links[r].initialLink, 0, codec).1.Some?
    ensures r >= 0 ==> forall j :: i <= j < r ==> GenerateShortLink(links[j].initialLink, 0, codec).1 == None
    decreases |links| - i
  {
    if i == |links| then -1
    else if GenerateShortLink(links[i].initialLink, 0, codec).1.Some? then i
    else FirstFailure(codec, links, i + 1)
  }

  /** The reply item CreateListShortURL builds from a stamped item. */
  function Reply(l: ShortURLByUser): ShortURLByUser
  {
    ShortURLByUser(l.shortLink, "", l.correlationID)
  }

  /**
   * The first loop of CreateListShortURL: each item in turn gets
   * BaseURL/code, generated with user id 0, until a generation error.
   */
  method StampLinks(codec: Codec, baseURL: string, links: array<ShortURLByUser>) returns (err: Option<Error>)
    requires GenerableUntilFailure(codec, links[..], 0)
    modifies links
    ensures var f := FirstFailure(codec, old(links[..]), 0);
      && (f >= 0 ==> err == GenerateShortLink(old(links[f]).initialLink, 0, codec).1)
      && (f == -1 ==> err == None)
      && (forall j :: 0 <= j < links.Length && (f == -1 || j < f) ==> links[j] == Stamped(codec, baseURL, old(links[j])))
      && (forall j :: 0 <= f <= j < links.Length ==> links[j] == old(links[j]))
  {
    ghost var init := links[..];
    for i := 0 to links.Length
      invariant GenerableUntilFailure(codec, init, i)
      invariant forall j :: 0 <= j < i ==> Generable(codec, init[j].initialLink, 0)
      invariant forall j :: 0 <= j < i ==> links[j] == Stamped(codec, baseURL, init[j])
      invariant forall j :: i <= j < links.Length ==> links[j] == init[j]
      invariant FirstFailure(codec, init, 0) == FirstFailure(codec, init, i)
    {
      assert links[i] == init[i];
      assert Generable(codec, init[i].initialLink, 0);
      var code, genErr := GenerateShortLink(links[i].initialLink, 0, codec).0, GenerateShortLink(links[i].initialLink, 0, codec).1;
      if genErr.Some? {
        return genErr;
      }
      assert GenerableUntilFailure(codec, init, i + 1);
      links[i] := SetShortLink(links[i], FullLink(baseURL, code));
    }
    return None;
  }

  class ShortURLStorage {
    const backend: Backend
    const cfg: Config
    const codec: Codec

    ghost predicate Valid()
      reads this, backend.Obj()
    {
      match backend {
        case Memory(m) => m.Valid()
        case File(_) => true
        case DB(d) => d.Valid()
      }
    }

    /**
     * NewStorage. The configuration, the outcome of NewDBStorage, the lines
     * already in the file and the rows already in the table are inputs.
     */
    constructor (cfg: Config, codec: Codec, dbInit: Option<Error>, fileLines: seq<InFile.Line>, tableRows: seq<Database.Row>)
      requires SelectBackend(cfg, dbInit) == DatabaseKind ==> Database.TableValid(tableRows)
      ensures this.cfg == cfg && this.codec == codec
      ensures KindOf(backend) == SelectBackend(cfg, dbInit)
      ensures Valid() && fresh(backend.Obj())
      ensures backend.Memory? ==> backend.mem.storage == map[]
      ensures backend.File? ==> backend.file.path == cfg.fileStoragePath && backend.file.lines == fileLines
      ensures backend.DB? ==> backend.db.rows == tableRows
    {
      this.cfg := cfg;
      this.codec := codec;
      if cfg.databaseDSN != "" && dbInit == None {
        var d := new Database.DBStorage(tableRows);
        backend := DB(d);
      } else if cfg.fileStoragePath != "" {
        var f := new InFile.FileStorage(cfg.fileStoragePath, fileLines);
        backend := File(f);
      } else {
        var m := new InMemory.InMemoryStorage();
        backend := Memory(m);
      }
    }

    /** GetInitialLink: the backend's answer, with "" on an error. */
    method GetInitialLink(shortLink: string) returns (link: string, err: Option<Error>)
      ensures err.Some? ==> link == ""
      ensures backend.Memory? ==> (link, err) == InMemory.Lookup(backend.mem.storage, shortLink)
      ensures backend.File? ==> (link, err) == InFile.Scan(backend.file.lines, shortLink)
      ensures backend.DB? ==> Database.LookupOutcome(backend.db.rows, shortLink, link, err)
    {
      match backend {
        case Memory(m) =>
          link, err := m.GetInitialLink(shortLink);
        case File(f) =>
          link, err := f.GetInitialLink(shortLink);
        case DB(d) =>
          link, err := d.GetInitialLink(shortLink);
      }
      if err.Some? {
        return "", err;
      }
    }

    /**
     * CreateShortURL. `updated` is the caller's record after the call: its
     * ShortLink is set once generation succeeded.
     */
    method CreateShortURL(s: ShortURL) returns (link: string, err: Option<Error>, updated: ShortURL)
      requires Valid() && Generable(codec, s.initialLink, s.userID)
      modifies backend.Obj()
      ensures Valid()
      ensures var (code, genErr) := GenerateShortLink(s.initialLink, s.userID, codec);
        if genErr.Some? then
          link == "" && err == genErr && updated == s && unchanged(backend.Obj())
        else
          && updated == s.(shortLink := code)
          && (backend.Memory? ==>
                backend.mem.storage == InMemory.Written(old(backend.mem.storage), updated) && (link, err) == (code, None))
          && (backend.File? ==>
                backend.file.lines == InFile.Appended(old(backend.file.lines), updated) && (link, err) == (code, None))
          && (backend.DB? ==>
                var (t, e) := Database.Inserted(old(backend.db.rows), updated);
                backend.db.rows == t && (link, err) == Classify(code, e))
    {
      var code, genErr := GenerateShortLink(s.initialLink, s.userID, codec).0, GenerateShortLink(s.initialLink, s.userID, codec).1;
      if genErr.Some? {
        return "", genErr, s;
      }
      updated := s.(shortLink := code);
      var berr;
      match backend {
        case Memory(m) =>
          berr := m.WriteShortURL(updated);
        case File(f) =>
          berr := f.WriteShortURL(updated);
        case DB(d) =>
          berr := d.WriteShortURL(updated);
      }
      link, err := Classify(code, berr).0, Classify(code, berr).1;
    }

    /** GetAllShortURLUser: a backend error comes back as a new error with the same message. */
    method GetAllShortURLUser(id: uint32) returns (result: seq<ShortURLByUser>, err: Option<Error>)
      ensures backend.Memory? ==> err == None && InMemory.ListsOwner(result, backend.mem.storage, id, cfg.baseURL)
      ensures backend.File? ==>
        match InFile.Listing(backend.file.lines, id, cfg.baseURL, |backend.file.lines|)
        case Ok(r) => result == r && err == None
        case Fail(e) => result == [] && err == Some(New(Message(e)))
      ensures backend.DB? ==>
        var rows := backend.db.rows;
        err == None && multiset(result) == multiset(Database.OwnedEntries(rows, id, cfg.baseURL, |rows|))
    {
      match backend {
        case Memory(m) =>
          result, err := m.GetAllShortURLByUser(id, cfg.baseURL);
        case File(f) =>
          result, err := f.GetAllShortURLByUser(id, cfg.baseURL);
        case DB(d) =>
          result, err := d.GetAllShortURLByUser(id, cfg.baseURL);
      }
      if err.Some? {
        return [], Some(New(Message(err.value)));
      }
    }

    /** PingDB: `connect` is the outcome of the database driver's ping. */
    method PingDB(connect: Option<Error>) returns (err: Option<Error>)
      ensures backend.DB? ==> err == connect
      ensures !backend.DB? ==> err == Some(New(PING_UNSUPPORTED))
    {
      match backend {
        case Memory(m) =>
          err := m.PingDB();
        case File(f) =>
          err := f.PingDB();
        case DB(_) =>
          err := connect;
      }
    }

    /**
     * CreateListShortURL: every item gets BaseURL/code (generated with user
     * id 0) in place; the first generation error stops before the backend
     * is touched; otherwise the stamped batch is written and the reply
     * lists each item's address and correlation id.
     */
    method CreateListShortURL(links: array<ShortURLByUser>) returns (results: seq<ShortURLByUser>, err: Option<Error>)
      requires Valid() && GenerableUntilFailure(codec, links[..], 0)
      modifies links, backend.Obj()
      ensures Valid()
      ensures var f := FirstFailure(codec, old(links[..]), 0);
        if f >= 0 then
          && results == [] && err == GenerateShortLink(old(links[f]).initialLink, 0, codec).1
          && unchanged(backend.Obj())
          && (forall j :: 0 <= j < f ==> links[j] == Stamped(codec, cfg.baseURL, old(links[j])))
          && (forall j :: f <= j < links.Length ==> links[j] == old(links[j]))
        else
          && (forall j :: 0 <= j < links.Length ==> links[j] == Stamped(codec, cfg.baseURL, old(links[j])))
          && (backend.Memory? ==>
                backend.mem.storage == InMemory.BatchWritten(old(backend.mem.storage), links[..], links.Length))
          && (backend.File? ==> backend.file.lines == old(backend.file.lines) + [InFile.BatchArray(links[..])])
          && (backend.DB? ==>
                match Database.BatchInserted(old(backend.db.rows), links[..], links.Length)
                case Ok(t) => backend.db.rows == t && err == None
                case Fail(e) => backend.db.rows == old(backend.db.rows) && results == [] && err == Some(e))
          && (err == None ==> |results| == links.Length && forall j :: 0 <= j < links.Length ==> results[j] == Reply(links[j]))
          && (!backend.DB? ==> err == None)
    {
      err := StampLinks(codec, cfg.baseURL, links);
      if err.Some? {
        return [], err;
      }
      results := [];
      for i := 0 to links.Length
        invariant |results| == i
        invariant forall j :: 0 <= j < i ==> results[j] == Reply(links[j])
      {
        results := results + [Reply(links[i])];
      }
      var werr;
      match backend {
        case Memory(m) =>
          werr := m.WriteListShortURL(links[..]);
        case File(f) =>
          werr := f.WriteListShortURL(links[..]);
        case DB(d) =>
          werr := d.WriteListShortURL(links[..]);
      }
      if werr.Some? {
        return [], werr;
      }
      err := None;
    }
  }

  /**
   * CreateShortURL over the database, for a generated code: an over-long
   * value loses the code, an initial link already stored keeps it and
   * reports ErrUniqueLink, a fresh one keeps it with no error.
   */
  lemma DatabaseCreateOutcome(rows: seq<Database.Row>, s: ShortURL, code: string)
    ensures var u := s.(shortLink := code);
      var r := Database.NewRow(u.initialLink, u.shortLink, Some(u.userID));
      Classify(code, Database.Inserted(rows, u).1) ==
        if r.Fail? then ("", Some(ValueTooLong))
        else if Database.HasInitialLink(rows, r.value.initialLink) then (code, Some(ErrUniqueLink))
        else (code, None)
  {
    var u := s.(shortLink := code);
    var r := Database.NewRow(u.initialLink, u.shortLink, Some(u.userID));
    if r.Fail? {
      assert r.err == ValueTooLong;
      assert Unwrap(ValueTooLong) == None;
      assert !Is(ValueTooLong, ErrUniqueLink);
    }
  }

  /** Creating the same record twice over the database: the second call keeps the rows and reports the same code with ErrUniqueLink. */
  lemma DatabaseCreateTwice(rows: seq<Database.Row>, s: ShortURL, code: string)
    requires Database.Inserted(rows, s.(shortLink := code)).1 == None
    ensures var u := s.(shortLink := code);
      var t := Database.Inserted(rows, u).0;
      Database.Inserted(t, u).0 == t && Classify(code, Database.Inserted(t, u).1) == (code, Some(ErrUniqueLink))
  {
    var u := s.(shortLink := code);
    var row := Database.NewRow(u.initialLink, u.shortLink, Some(u.userID)).value;
    var t := Database.Inserted(rows, u).0;
    assert t[|rows|] == row;
    assert Database.HasInitialLink(t, row.initialLink);
  }
}
