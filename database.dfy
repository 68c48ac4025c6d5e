/**
 * DBStorage of internal/app/storage/database.go, as the table its SQL
 * statements read and write. The table shortened_links is a sequence of rows
 * in insertion (bigserial id) order; date_of_create is not modelled.
 * CreateTable makes initial_link unique and both links varchar(256).
 */
module Database {
  import opened Optional
  import opened Bytes
  import opened ErrorUtil
  import opened StorageTypes

  /** A row; NULL is None. */
  datatype Row = Row(initialLink: string, shortLink: string, userID: Option<uint32>, deleted: Option<bool>)

  const VARCHAR_LIMIT: nat := 256

  /**
   * Assignment to a varchar(256) column: a longer value is an error unless
   * the excess characters are all spaces, which are then cut off.
   */
  function Varchar(s: string): (r: Result<string>)
    ensures r.Ok? ==> |r.value| <= VARCHAR_LIMIT && r.value <= s
    ensures r.Fail? ==> r.err == ValueTooLong
    ensures |s| <= VARCHAR_LIMIT ==> r == Ok(s)
  {
    if |s| <= VARCHAR_LIMIT then Ok(s)
    else if forall i :: VARCHAR_LIMIT <= i < |s| ==> s[i] == ' ' then Ok(s[..VARCHAR_LIMIT])
    else Fail(ValueTooLong)
  }

  /** The row an INSERT builds from its values, columns assigned left to right. */
  function NewRow(initialLink: string, shortLink: string, userID: Option<uint32>): Result<Row>
  {
    match Varchar(initialLink)
    case Fail(e) => Fail(e)
    case Ok(i) =>
      match Varchar(shortLink)
      case Fail(e) => Fail(e)
      case Ok(s) => Ok(Row(i, s, userID, None))
  }

  predicate HasInitialLink(rows: seq<Row>, initialLink: string)
  {
    exists i :: 0 <= i < |rows| && rows[i].initialLink == initialLink
  }

  predicate UniqueInitialLinks(rows: seq<Row>)
  {
    forall i, j :: 0 <= i < j < |rows| ==> rows[i].initialLink != rows[j].initialLink
  }

  /** The constraints of the schema CreateTable declares. */
  predicate TableValid(rows: seq<Row>)
  {
    && UniqueInitialLinks(rows)
    && forall i :: 0 <= i < |rows| ==> |rows[i].initialLink| <= VARCHAR_LIMIT && |rows[i].shortLink| <= VARCHAR_LIMIT
  }

  /** WriteShortURL: INSERT ... ON CONFLICT (initial_link) DO NOTHING, then "rows affected != 1" is a conflict. */
  function Inserted(rows: seq<Row>, s: ShortURL): (seq<Row>, Option<Error>)
  {
    match NewRow(s.initialLink, s.shortLink, Some(s.userID))
    case Fail(e) => (rows, Some(e))
    case Ok(row) =>
      if HasInitialLink(rows, row.initialLink) then (rows, Some(NewInsertUniqueLinkError(s.initialLink)))
      else (rows + [row], None)
  }

  /** The row a batch item becomes: its links, a NULL user_id. */
  function Staged(l: ShortURLByUser): Result<Row>
  {
    NewRow(l.initialLink, l.shortLink, None)
  }

  /** One plain INSERT of a batch item; a duplicate initial link violates the constraint. */
  function InsertPlain(rows: seq<Row>, l: ShortURLByUser): Result<seq<Row>>
  {
    match Staged(l)
    case Fail(e) => Fail(e)
    case Ok(row) => if HasInitialLink(rows, row.initialLink) then Fail(UniqueViolation) else Ok(rows + [row])
  }

  /** The table inside the transaction after the first n batch items, or the first failure. */
  function BatchInserted(rows: seq<Row>, links: seq<ShortURLByUser>, n: nat): Result<seq<Row>>
    requires n <= |links|
  {
    if n == 0 then Ok(rows)
    else
      match BatchInserted(rows, links, n - 1)
      case Fail(e) => Fail(e)
      case Ok(t) => InsertPlain(t, links[n - 1])
  }

  /** update ... set deleted = true where user_id = id and short_link = link */
  function Tombstoned(rows: seq<Row>, link: string, id: uint32): (r: seq<Row>)
    ensures |r| == |rows|
    ensures forall i :: 0 <= i < |rows| ==>
      r[i] == if rows[i].userID == Some(id) && rows[i].shortLink == link then rows[i].(deleted := Some(true)) else rows[i]
  {
    seq(|rows|, i requires 0 <= i < |rows| =>
      if rows[i].userID == Some(id) && rows[i].shortLink == link then rows[i].(deleted := Some(true)) else rows[i])
  }

  /** What GetInitialLink returns for one returned row: COALESCE(deleted, false) decides. */
  function RowOutcome(row: Row, shortLink: string): (string, Option<Error>)
  {
    if row.deleted == Some(true) then ("", Some(NewDeletedLinkError(shortLink))) else (row.initialLink, None)
  }

  /**
   * The outcomes QueryRow allows: no row is pgx.ErrNoRows; otherwise the
   * outcome of SOME row with that short link (the query has no ORDER BY).
   */
  ghost predicate LookupOutcome(rows: seq<Row>, shortLink: string, link: string, err: Option<Error>)
  {
    && ((forall i :: 0 <= i < |rows| ==> rows[i].shortLink != shortLink) ==> link == "" && err == Some(NoRows))
    && ((exists i :: 0 <= i < |rows| && rows[i].shortLink == shortLink) ==>
          exists i :: 0 <= i < |rows| && rows[i].shortLink == shortLink && (link, err) == RowOutcome(rows[i], shortLink))
  }

  /** The listing entries of the owner's rows (deleted ones too), in table order. */
  function OwnedEntries(rows: seq<Row>, userID: uint32, baseURL: string, n: nat): seq<ShortURLByUser>
    requires n <= |rows|
  {
    if n == 0 then []
    else
      OwnedEntries(rows, userID, baseURL, n - 1) +
      (if rows[n - 1].userID == Some(userID) then [UserEntry(baseURL, rows[n - 1].initialLink, rows[n - 1].shortLink)] else [])
  }

  predicate OwnsShortLink(rows: seq<Row>, id: uint32, shortLink: string)
  {
    exists i :: 0 <= i < |rows| && rows[i].userID == Some(id) && rows[i].shortLink == shortLink
  }

  class DBStorage {
    var rows: seq<Row>

    ghost predicate Valid()
      reads this
    {
      TableValid(rows)
    }

    /** NewDBStorage after CreateTable succeeded on a table holding `existing`. */
    constructor (existing: seq<Row>)
      requires TableValid(existing)
      ensures Valid() && rows == existing
    {
      rows := existing;
    }

    method GetInitialLink(shortLink: string) returns (link: string, err: Option<Error>)
      ensures LookupOutcome(rows, shortLink, link, err)
    {
      for i := 0 to |rows|
        invariant forall j :: 0 <= j < i ==> rows[j].shortLink != shortLink
      {
        if rows[i].shortLink == shortLink {
          link, err := RowOutcome(rows[i], shortLink).0, RowOutcome(rows[i], shortLink).1;
          return;
        }
      }
      return "", Some(NoRows);
    }

    method WriteShortURL(s: ShortURL) returns (err: Option<Error>)
      requires Valid()
      modifies this
      ensures Valid()
      ensures (rows, err) == Inserted(old(rows), s)
    {
      var r := NewRow(s.initialLink, s.shortLink, Some(s.userID));
      if r.Fail? {
        return Some(r.err);
      }
      var row := r.value;
      var i := 0;
      while i < |rows|
        invariant 0 <= i <= |rows|
        invariant forall j :: 0 <= j < i ==> rows[j].initialLink != row.initialLink
      {
        if rows[i].initialLink == row.initialLink {
          return Some(NewInsertUniqueLinkError(s.initialLink));
        }
        i := i + 1;
      }
      rows := rows + [row];
      return None;
    }

    method GetAllShortURLByUser(userID: uint32, baseURL: string) returns (result: seq<ShortURLByUser>, err: Option<Error>)
      ensures multiset(result) == multiset(OwnedEntries(rows, userID, baseURL, |rows|))
      ensures err == None
    {
      result := [];
      for i := 0 to |rows|
        invariant result == OwnedEntries(rows, userID, baseURL, i)
      {
        if rows[i].userID == Some(userID) {
          result := result + [UserEntry(baseURL, rows[i].initialLink, rows[i].shortLink)];
        }
      }
      err := None;
    }

    /** The transaction: every item inserted and committed, or the first failure rolls all back. */
    method WriteListShortURL(links: seq<ShortURLByUser>) returns (err: Option<Error>)
      requires Valid()
      modifies this
      ensures Valid()
      ensures match BatchInserted(old(rows), links, |links|)
        case Ok(t) => rows == t && err == None
        case Fail(e) => rows == old(rows) && err == Some(e)
    {
      var pending := rows;
      for i := 0 to |links|
        invariant rows == old(rows)
        invariant BatchInserted(rows, links, i) == Ok(pending)
        invariant TableValid(pending)
      {
        var r := InsertPlain(pending, links[i]);
        if r.Fail? {
          BatchStaysFailed(rows, links, i + 1, |links|);
          return Some(r.err);
        }
        InsertPlainKeepsValid(pending, links[i]);
        pending := r.value;
      }
      rows := pending;
      return None;
    }

    /** The short links among `links` that no row of owner `id` has, each once (EXCEPT is a set difference). */
    method CheckURLsCreatedByUser(links: seq<string>, id: uint32) returns (result: seq<string>, err: Option<Error>)
      ensures forall x :: x in result <==> x in links && !OwnsShortLink(rows, id, x)
      ensures forall i, j :: 0 <= i < j < |result| ==> result[i] != result[j]
      ensures err == None
    {
      result := [];
      for i := 0 to |links|
        invariant forall x :: x in result <==> x in links[..i] && !OwnsShortLink(rows, id, x)
        invariant forall a, b :: 0 <= a < b < |result| ==> result[a] != result[b]
      {
        assert links[..i + 1] == links[..i] + [links[i]];
        if !OwnsShortLink(rows, id, links[i]) && links[i] !in result {
          result := result + [links[i]];
        }
      }
      assert links[..|links|] == links;
      err := None;
    }

    method DeleteShortURLByUser(link: string, id: uint32) returns (err: Option<Error>)
      requires Valid()
      modifies this
      ensures Valid()
      ensures rows == Tombstoned(old(rows), link, id)
      ensures err == None
    {
      rows := Tombstoned(rows, link, id);
      return None;
    }
  }

  lemma {:induction false} BatchStaysFailed(rows: seq<Row>, links: seq<ShortURLByUser>, m: nat, n: nat)
    requires m <= n <= |links| && BatchInserted(rows, links, m).Fail?
    ensures BatchInserted(rows, links, n) == BatchInserted(rows, links, m)
    decreases n - m
  {
    if m < n {
      BatchStaysFailed(rows, links, m, n - 1);
    }
  }

  lemma InsertPlainKeepsValid(rows: seq<Row>, l: ShortURLByUser)
    requires TableValid(rows) && InsertPlain(rows, l).Ok?
    ensures TableValid(InsertPlain(rows, l).value)
  {
  }

  /** Every insert keeps initial_link unique and the links within varchar(256). */
  lemma InsertedKeepsValid(rows: seq<Row>, s: ShortURL)
    requires TableValid(rows)
    ensures TableValid(Inserted(rows, s).0)
  {
  }

  /** The batch keeps the schema's constraints. */
  lemma {:induction false} BatchKeepsValid(rows: seq<Row>, links: seq<ShortURLByUser>, n: nat)
    requires n <= |links| && TableValid(rows) && BatchInserted(rows, links, n).Ok?
    ensures TableValid(BatchInserted(rows, links, n).value)
  {
    if n > 0 {
      BatchKeepsValid(rows, links, n - 1);
      InsertPlainKeepsValid(BatchInserted(rows, links, n - 1).value, links[n - 1]);
    }
  }

  /**
   * A committed batch appends exactly one ownerless, live row per item, in
   * order, after the untouched old rows.
   */
  lemma {:induction false} BatchAppendsRows(rows: seq<Row>, links: seq<ShortURLByUser>, n: nat)
    requires n <= |links| && BatchInserted(rows, links, n).Ok?
    ensures var t := BatchInserted(rows, links, n).value;
      && |t| == |rows| + n
      && t[..|rows|] == rows
      && forall i :: 0 <= i < n ==> Staged(links[i]) == Ok(t[|rows| + i])
  {
    if n > 0 {
      BatchAppendsRows(rows, links, n - 1);
      var t0 := BatchInserted(rows, links, n - 1).value;
      var t := BatchInserted(rows, links, n).value;
      assert t == t0 + [Staged(links[n - 1]).value];
      forall i | 0 <= i < n
        ensures Staged(links[i]) == Ok(t[|rows| + i])
      {
        if i < n - 1 { assert t[|rows| + i] == t0[|rows| + i]; }
      }
    }
  }

  /** A batch item whose initial link is already in the table makes the whole batch fail. */
  lemma {:induction false} BatchFailsOnStoredLink(rows: seq<Row>, links: seq<ShortURLByUser>, n: nat, k: nat, row: Row)
    requires k < n <= |links|
    requires Staged(links[k]) == Ok(row)
    requires HasInitialLink(rows, row.initialLink)
    ensures BatchInserted(rows, links, n).Fail?
  {
    if n - 1 > k {
      BatchFailsOnStoredLink(rows, links, n - 1, k, row);
      BatchStaysFailed(rows, links, n - 1, n);
    } else if BatchInserted(rows, links, k).Ok? {
      var t := BatchInserted(rows, links, k).value;
      BatchAppendsRows(rows, links, k);
      var i :| 0 <= i < |rows| && rows[i].initialLink == row.initialLink;
      assert t[i] == rows[i];
    }
  }

  /**
   * The other direction: items that all fit, are new to the table and are
   * pairwise distinct commit.
   */
  lemma {:induction false} BatchSucceedsWhenFresh(rows: seq<Row>, links: seq<ShortURLByUser>, n: nat)
    requires n <= |links|
    requires forall i :: 0 <= i < n ==> Staged(links[i]).Ok?
    requires forall i :: 0 <= i < n ==> !HasInitialLink(rows, Staged(links[i]).value.initialLink)
    requires forall i, j :: 0 <= i < j < n ==> Staged(links[i]).value.initialLink != Staged(links[j]).value.initialLink
    ensures BatchInserted(rows, links, n).Ok?
  {
    if n > 0 {
      BatchSucceedsWhenFresh(rows, links, n - 1);
      BatchAppendsRows(rows, links, n - 1);
      var t := BatchInserted(rows, links, n - 1).value;
      var row := Staged(links[n - 1]).value;
      forall k | 0 <= k < |t| ensures t[k].initialLink != row.initialLink {
        if k < |rows| {
          assert t[k] == t[..|rows|][k] == rows[k];
        } else {
          assert Staged(links[k - |rows|]) == Ok(t[k]);
        }
      }
    }
  }

  /** Create then resolve: a fresh row whose short link no other row has is what the lookup returns. */
  lemma InsertThenLookup(rows: seq<Row>, s: ShortURL, link: string, err: Option<Error>)
    requires Inserted(rows, s).1 == None
    requires forall i :: 0 <= i < |rows| ==> rows[i].shortLink != s.shortLink
    requires |s.initialLink| <= VARCHAR_LIMIT && |s.shortLink| <= VARCHAR_LIMIT
    requires LookupOutcome(Inserted(rows, s).0, s.shortLink, link, err)
    ensures link == s.initialLink && err == None
  {
    var t := Inserted(rows, s).0;
    assert t[|rows|].shortLink == s.shortLink;
    var i :| 0 <= i < |t| && t[i].shortLink == s.shortLink && (link, err) == RowOutcome(t[i], s.shortLink);
  }

  /** Creating the same link twice: the second insert adds nothing and reports the conflict. */
  lemma InsertTwiceConflicts(rows: seq<Row>, s: ShortURL)
    requires Inserted(rows, s).1 == None
    ensures var t := Inserted(rows, s).0;
      Inserted(t, s) == (t, Some(NewInsertUniqueLinkError(s.initialLink)))
  {
    var t := Inserted(rows, s).0;
    assert t[|rows|].initialLink == NewRow(s.initialLink, s.shortLink, Some(s.userID)).value.initialLink;
  }

  /**
   * A second owner shortening a stored URL: the insert violates the unique
   * constraint and adds no row, so the code they are given has no row.
   */
  lemma InsertOfStoredLinkNotFound(rows: seq<Row>, s: ShortURL, link: string, err: Option<Error>)
    requires HasInitialLink(rows, s.initialLink)
    requires |s.initialLink| <= VARCHAR_LIMIT && |s.shortLink| <= VARCHAR_LIMIT
    requires forall i :: 0 <= i < |rows| ==> rows[i].shortLink != s.shortLink
    requires LookupOutcome(Inserted(rows, s).0, s.shortLink, link, err)
    ensures Inserted(rows, s) == (rows, Some(NewInsertUniqueLinkError(s.initialLink)))
    ensures link == "" && err == Some(NoRows)
  {
  }

  /** After the owner deletes a link, resolving it reports the deletion, never "not found". */
  lemma DeleteThenLookup(rows: seq<Row>, p: string, id: uint32, link: string, err: Option<Error>)
    requires forall i :: 0 <= i < |rows| && rows[i].shortLink == p ==> rows[i].userID == Some(id)
    requires exists i :: 0 <= i < |rows| && rows[i].shortLink == p
    requires LookupOutcome(Tombstoned(rows, p, id), p, link, err)
    ensures link == "" && err == Some(NewDeletedLinkError(p))
  {
    var t := Tombstoned(rows, p, id);
    var k :| 0 <= k < |rows| && rows[k].shortLink == p;
    assert t[k].shortLink == p;
  }

  /** Deleting with another owner's id changes no row that owner does not have. */
  lemma DeleteByOtherOwnerKeepsRow(rows: seq<Row>, p: string, id: uint32, i: nat)
    requires i < |rows| && rows[i].userID != Some(id)
    ensures Tombstoned(rows, p, id)[i] == rows[i]
  {
  }

  /** Tombstoning keeps every row and its links; only deleted flags change. */
  lemma TombstonedKeepsValid(rows: seq<Row>, link: string, id: uint32)
    requires TableValid(rows)
    ensures TableValid(Tombstoned(rows, link, id))
  {
    var t := Tombstoned(rows, link, id);
    assert forall i :: 0 <= i < |rows| ==> t[i].initialLink == rows[i].initialLink && t[i].shortLink == rows[i].shortLink;
  }

  /** The listing holds the owner's rows, deleted or not, and nothing else. */
  lemma {:induction false} OwnedEntriesMembers(rows: seq<Row>, userID: uint32, baseURL: string, n: nat, e: ShortURLByUser)
    requires n <= |rows|
    ensures e in OwnedEntries(rows, userID, baseURL, n) <==>
      exists i :: 0 <= i < n && rows[i].userID == Some(userID) &&
        e == UserEntry(baseURL, rows[i].initialLink, rows[i].shortLink)
  {
    if n > 0 {
      OwnedEntriesMembers(rows, userID, baseURL, n - 1, e);
    }
  }
}
