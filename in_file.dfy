/**
 * FileStorage of internal/app/storage/in_file.go: the file is an append-only
 * sequence of lines, each the JSON of one ShortURL, or -- after a batch write --
 * the JSON array of a whole batch, or anything else a line can hold. JSON
 * bytes are not modelled: a line is what it would decode to.
 */
module InFile {
  import opened Optional
  import opened Bytes
  import opened ErrorUtil
  import opened StorageTypes

  datatype Line =
      /** json.Marshal of one ShortURL */
    | Record(url: ShortURL)
      /** json.Marshal of a []ShortURLByUser, written by WriteListShortURL */
    | BatchArray(items: seq<ShortURLByUser>)
      /** a line that is not JSON at all, with the decoder's message */
    | Malformed(msg: string)

  const ARRAY_INTO_RECORD := "json: cannot unmarshal array into Go value of type storage.ShortURL"

  /** json.Unmarshal of a line into a ShortURL. */
  function DecodeLine(l: Line): Result<ShortURL>
  {
    match l
    case Record(u) => Ok(u)
    case BatchArray(_) => Fail(JSONDecode(ARRAY_INTO_RECORD))
    case Malformed(msg) => Fail(JSONDecode(msg))
  }

  /** ScanFile from line i on: the first matching record, or the first decoding error before it. */
  function ScanFrom(lines: seq<Line>, p: string, i: nat): (r: (string, Option<Error>))
    requires i <= |lines|
    ensures r.1.Some? ==> r.0 == ""
    decreases |lines| - i
  {
    if i == |lines| then ("", None)
    else
      match DecodeLine(lines[i])
      case Fail(e) => ("", Some(e))
      case Ok(u) => if u.shortLink == p then (u.initialLink, None) else ScanFrom(lines, p, i + 1)
  }

  function Scan(lines: seq<Line>, p: string): (r: (string, Option<Error>))
    ensures r.1.Some? ==> r.0 == ""
  {
    ScanFrom(lines, p, 0)
  }

  /** The lines before index i are records, none with short link p. */
  predicate PassedBy(lines: seq<Line>, p: string, i: nat)
    requires i <= |lines|
  {
    forall j :: 0 <= j < i ==> lines[j].Record? && lines[j].url.shortLink != p
  }

  /** The log after WriteShortURL(s): one more record, unless a scan already yields a non-empty link. */
  function Appended(lines: seq<Line>, s: ShortURL): seq<Line>
  {
    if Scan(lines, s.shortLink).0 != "" then lines else lines + [Record(s)]
  }

  /** GetAllShortURLByUser over the first n lines: the owner's entries in file order, or the first decoding error. */
  function Listing(lines: seq<Line>, userID: uint32, baseURL: string, n: nat): Result<seq<ShortURLByUser>>
    requires n <= |lines|
  {
    if n == 0 then Ok([])
    else
      match Listing(lines, userID, baseURL, n - 1)
      case Fail(e) => Fail(e)
      case Ok(r) =>
        match DecodeLine(lines[n - 1])
        case Fail(e) => Fail(e)
        case Ok(u) =>
          Ok(if u.userID == userID then r + [UserEntry(baseURL, u.initialLink, u.shortLink)] else r)
  }

  class FileStorage {
    const path: string
    var lines: seq<Line>

    /** NewInFileStorage, over a file that already holds `existing`. */
    constructor (path: string, existing: seq<Line>)
      ensures this.path == path && lines == existing
    {
      this.path := path;
      lines := existing;
    }

    method ScanFile(p: string) returns (link: string, err: Option<Error>)
      ensures (link, err) == Scan(lines, p)
    {
      var i := 0;
      while i < |lines|
        invariant 0 <= i <= |lines|
        invariant Scan(lines, p) == ScanFrom(lines, p, i)
      {
        match DecodeLine(lines[i])
        case Fail(e) =>
          return "", Some(e);
        case Ok(u) =>
          if u.shortLink == p {
            return u.initialLink, None;
          }
        i := i + 1;
      }
      return "", None;
    }

    method WriteShortURL(s: ShortURL) returns (err: Option<Error>)
      modifies this
      ensures lines == Appended(old(lines), s)
      ensures err == None
    {
      var exist, _ := ScanFile(s.shortLink);
      if exist != "" {
        return None;
      }
      lines := lines + [Record(s)];
      return None;
    }

    method GetInitialLink(shortLink: string) returns (link: string, err: Option<Error>)
      ensures (link, err) == Scan(lines, shortLink)
    {
      link, err := ScanFile(shortLink);
    }

    method GetAllShortURLByUser(userID: uint32, baseURL: string) returns (result: seq<ShortURLByUser>, err: Option<Error>)
      ensures match Listing(lines, userID, baseURL, |lines|)
        case Ok(r) => result == r && err == None
        case Fail(e) => result == [] && err == Some(e)
    {
      result := [];
      for i := 0 to |lines|
        invariant Listing(lines, userID, baseURL, i) == Ok(result)
      {
        match DecodeLine(lines[i])
        case Fail(e) =>
          ListingStaysFailed(lines, userID, baseURL, i + 1, |lines|);
          return [], Some(e);
        case Ok(u) =>
          if u.userID == userID {
            result := result + [UserEntry(baseURL, u.initialLink, u.shortLink)];
          }
      }
      err := None;
    }

    method WriteListShortURL(links: seq<ShortURLByUser>) returns (err: Option<Error>)
      modifies this
      ensures lines == old(lines) + [BatchArray(links)]
      ensures err == None
    {
      lines := lines + [BatchArray(links)];
      return None;
    }

    method PingDB() returns (err: Option<Error>)
      ensures err == Some(New(PING_UNSUPPORTED))
    {
      return Some(New(PING_UNSUPPORTED));
    }
  }

  lemma {:induction false} ListingStaysFailed(lines: seq<Line>, userID: uint32, baseURL: string, m: nat, n: nat)
    requires m <= n <= |lines| && Listing(lines, userID, baseURL, m).Fail?
    ensures Listing(lines, userID, baseURL, n) == Listing(lines, userID, baseURL, m)
    decreases n - m
  {
    if m < n {
      ListingStaysFailed(lines, userID, baseURL, m, n - 1);
    }
  }

  /** Every scan started at or before i passes the records before i. */
  lemma {:induction false} ScanSkipsPassed(lines: seq<Line>, p: string, s: nat, i: nat)
    requires s <= i <= |lines| && PassedBy(lines, p, i)
    ensures ScanFrom(lines, p, s) == ScanFrom(lines, p, i)
    decreases i - s
  {
    if s < i {
      ScanSkipsPassed(lines, p, s + 1, i);
    }
  }

  /** The first record with the short link wins. */
  lemma ScanFindsFirstMatch(lines: seq<Line>, p: string, i: nat)
    requires i < |lines| && PassedBy(lines, p, i)
    requires lines[i].Record? && lines[i].url.shortLink == p
    ensures Scan(lines, p) == (lines[i].url.initialLink, None)
  {
    ScanSkipsPassed(lines, p, 0, i);
  }

  /** A line that does not decode, met before any match, fails the scan with its decoding error. */
  lemma ScanStopsAtUndecodable(lines: seq<Line>, p: string, i: nat)
    requires i < |lines| && PassedBy(lines, p, i) && !lines[i].Record?
    ensures Scan(lines, p) == ("", Some(DecodeLine(lines[i]).err))
  {
    ScanSkipsPassed(lines, p, 0, i);
  }

  /** A scan that passes every line finds nothing, without an error. */
  lemma ScanAbsent(lines: seq<Line>, p: string)
    requires PassedBy(lines, p, |lines|)
    ensures Scan(lines, p) == ("", None)
  {
    ScanSkipsPassed(lines, p, 0, |lines|);
  }

  /** Appending never changes a scan that stopped inside the old log. */
  lemma {:induction false} ScanStableUnderAppend(lines: seq<Line>, more: seq<Line>, p: string, i: nat)
    requires i <= |lines|
    requires ScanFrom(lines, p, i).0 != "" || ScanFrom(lines, p, i).1.Some?
    ensures ScanFrom(lines + more, p, i) == ScanFrom(lines, p, i)
    decreases |lines| - i
  {
    assert i < |lines|;
    assert (lines + more)[i] == lines[i];
    if DecodeLine(lines[i]).Ok? && lines[i].url.shortLink != p {
      ScanStableUnderAppend(lines, more, p, i + 1);
    }
  }

  /** Create then resolve: a link written to a log that does not know it is found again. */
  lemma WriteThenScan(lines: seq<Line>, s: ShortURL)
    requires PassedBy(lines, s.shortLink, |lines|)
    ensures Appended(lines, s) == lines + [Record(s)]
    ensures Scan(Appended(lines, s), s.shortLink) == (s.initialLink, None)
  {
    ScanAbsent(lines, s.shortLink);
    var after := lines + [Record(s)];
    assert PassedBy(after, s.shortLink, |lines|) by {
      forall j | 0 <= j < |lines| ensures after[j] == lines[j] { }
    }
    ScanFindsFirstMatch(after, s.shortLink, |lines|);
  }

  /** Writing the same record twice to a log that did not know it adds it once, when its initial link is not empty. */
  lemma WriteTwiceAddsOnce(lines: seq<Line>, s: ShortURL)
    requires PassedBy(lines, s.shortLink, |lines|) && s.initialLink != ""
    ensures Appended(Appended(lines, s), s) == lines + [Record(s)]
  {
    WriteThenScan(lines, s);
  }

  /**
   * The existence check sees only the decoding error of an undecodable line
   * met before any record with the short link, so every write of that
   * record appends it again.
   */
  lemma WriteAfterUndecodableRepeats(lines: seq<Line>, s: ShortURL, i: nat)
    requires i < |lines| && PassedBy(lines, s.shortLink, i) && !lines[i].Record?
    ensures Appended(Appended(lines, s), s) == lines + [Record(s), Record(s)]
  {
    ScanStopsAtUndecodable(lines, s.shortLink, i);
    var once := lines + [Record(s)];
    assert once[i] == lines[i];
    assert PassedBy(once, s.shortLink, i) by {
      forall j | 0 <= j < i ensures once[j] == lines[j] { }
    }
    ScanStopsAtUndecodable(once, s.shortLink, i);
  }

  /**
   * A batch line blocks every later record: a link first written after a
   * batch can never be resolved, the scan stops at the batch with a JSON error.
   */
  lemma BatchLineBlocksLaterLookups(lines: seq<Line>, links: seq<ShortURLByUser>, more: seq<Line>, p: string)
    requires PassedBy(lines, p, |lines|)
    ensures Scan(lines + [BatchArray(links)] + more, p) == ("", Some(JSONDecode(ARRAY_INTO_RECORD)))
  {
    var all := lines + [BatchArray(links)] + more;
    assert all[|lines|] == BatchArray(links);
    assert PassedBy(all, p, |lines|) by {
      forall j | 0 <= j < |lines| ensures all[j] == lines[j] { }
    }
    ScanStopsAtUndecodable(all, p, |lines|);
  }

  /** Listing succeeds exactly when every line decodes. */
  lemma {:induction false} ListingSucceedsIff(lines: seq<Line>, userID: uint32, baseURL: string, n: nat)
    requires n <= |lines|
    ensures Listing(lines, userID, baseURL, n).Ok? <==> forall j :: 0 <= j < n ==> lines[j].Record?
  {
    if n > 0 {
      ListingSucceedsIff(lines, userID, baseURL, n - 1);
    }
  }

  /** A successful listing holds exactly the entries of the owner's records. */
  lemma {:induction false} ListingMembers(lines: seq<Line>, userID: uint32, baseURL: string, n: nat, e: ShortURLByUser)
    requires n <= |lines| && Listing(lines, userID, baseURL, n).Ok?
    ensures e in Listing(lines, userID, baseURL, n).value <==>
      exists j :: 0 <= j < n && lines[j].Record? && lines[j].url.userID == userID &&
        e == UserEntry(baseURL, lines[j].url.initialLink, lines[j].url.shortLink)
  {
    if n > 0 {
      ListingMembers(lines, userID, baseURL, n - 1, e);
    }
  }
}
