/**
 * InMemoryStorage of internal/app/storage/in_memory.go: one map from short
 * link to record. Go ranges over a map in an unspecified order; the loops
 * below pick the next key with `:|`, so they are proved for every order.
 */
module InMemory {
  import opened Optional
  import opened Bytes
  import opened ErrorUtil
  import opened StorageTypes

  const NOT_FOUND := "URL with this value does not exist"

  /** Every record is stored under its own short link. */
  ghost predicate KeyedByShortLink(m: map<string, ShortURL>)
  {
    forall k :: k in m ==> m[k].shortLink == k
  }

  predicate HasInitialLink(m: map<string, ShortURL>, initialLink: string)
  {
    exists k :: k in m && m[k].initialLink == initialLink
  }

  /** GetInitialLink on a map state. */
  function Lookup(m: map<string, ShortURL>, shortLink: string): (string, Option<Error>)
  {
    if shortLink in m then (m[shortLink].initialLink, None) else ("", Some(New(NOT_FOUND)))
  }

  /** The map after WriteShortURL(s): unchanged when the initial link is already stored. */
  function Written(m: map<string, ShortURL>, s: ShortURL): map<string, ShortURL>
  {
    if HasInitialLink(m, s.initialLink) then m else m[s.shortLink := s]
  }

  /** The record WriteListShortURL stores for a batch item: no owner. */
  function BatchRecord(l: ShortURLByUser): ShortURL
  {
    ShortURL(l.initialLink, l.shortLink, 0)
  }

  /** The map after the first n items of a batch are stored, in order, with no duplicate check. */
  function BatchWritten(m: map<string, ShortURL>, links: seq<ShortURLByUser>, n: nat): map<string, ShortURL>
    requires n <= |links|
  {
    if n == 0 then m
    else BatchWritten(m, links, n - 1)[links[n - 1].shortLink := BatchRecord(links[n - 1])]
  }

  /** The index of the last of the first n items with short link k, or -1 if none has it. */
  function LastIndexBelow(links: seq<ShortURLByUser>, k: string, n: nat): (r: int)
    requires n <= |links|
    ensures -1 <= r < n
    ensures r == -1 ==> forall j :: 0 <= j < n ==> links[j].shortLink != k
    ensures r >= 0 ==> links[r].shortLink == k && forall j :: r < j < n ==> links[j].shortLink != k
  {
    if n == 0 then -1
    else if links[n - 1].shortLink == k then n - 1
    else LastIndexBelow(links, k, n - 1)
  }

  /** The keys whose records belong to an owner. */
  function OwnedKeys(m: map<string, ShortURL>, userID: uint32): set<string>
  {
    set k | k in m && m[k].userID == userID
  }

  /** keys visits the owner's keys once each, in some order, and result holds their entries in that order. */
  ghost predicate EnumeratesOwner(keys: seq<string>, result: seq<ShortURLByUser>, m: map<string, ShortURL>, userID: uint32, baseURL: string)
  {
    && multiset(keys) == multiset(OwnedKeys(m, userID))
    && |result| == |keys|
    && forall i :: 0 <= i < |keys| ==>
         keys[i] in m && result[i] == UserEntry(baseURL, m[keys[i]].initialLink, m[keys[i]].shortLink)
  }

  /** result lists the owner's records in some order of the map: Go's range order is unspecified. */
  ghost predicate ListsOwner(result: seq<ShortURLByUser>, m: map<string, ShortURL>, userID: uint32, baseURL: string)
  {
    exists keys: seq<string> :: EnumeratesOwner(keys, result, m, userID, baseURL)
  }

  class InMemoryStorage {
    var storage: map<string, ShortURL>

    ghost predicate Valid()
      reads this
    {
      KeyedByShortLink(storage)
    }

    /** NewInMemoryStorage */
    constructor ()
      ensures Valid() && storage == map[]
    {
      storage := map[];
    }

    method GetInitialLink(shortLink: string) returns (link: string, err: Option<Error>)
      ensures (link, err) == Lookup(storage, shortLink)
    {
      if shortLink !in storage {
        return "", Some(New(NOT_FOUND));
      }
      return storage[shortLink].initialLink, None;
    }

    method WriteShortURL(s: ShortURL) returns (err: Option<Error>)
      requires Valid()
      modifies this
      ensures Valid()
      ensures storage == Written(old(storage), s)
      ensures err == None
    {
      var rest := storage.Keys;
      while rest != {}
        invariant rest <= storage.Keys
        invariant forall k :: k in storage && k !in rest ==> storage[k].initialLink != s.initialLink
        decreases rest
      {
        var k :| k in rest;
        if s.initialLink == storage[k].initialLink {
          return None;
        }
        rest := rest - {k};
      }
      storage := storage[s.shortLink := s];
      return None;
    }

    /**
     * The entries of one owner, in some order: `keys` is the order the map
     * was visited in, a permutation of the owner's keys.
     */
    method GetAllShortURLByUser(userID: uint32, baseURL: string) returns (result: seq<ShortURLByUser>, err: Option<Error>)
      ensures err == None
      ensures ListsOwner(result, storage, userID, baseURL)
    {
      var rest := storage.Keys;
      ghost var keys: seq<string> := [];
      result, err := [], None;
      while rest != {}
        invariant rest <= storage.Keys
        invariant multiset(keys) == multiset(OwnedKeys(storage, userID) - rest)
        invariant |result| == |keys|
        invariant forall i :: 0 <= i < |keys| ==>
          keys[i] in storage &&
          result[i] == UserEntry(baseURL, storage[keys[i]].initialLink, storage[keys[i]].shortLink)
        decreases rest
      {
        var k :| k in rest;
        var done := OwnedKeys(storage, userID) - rest;
        if storage[k].userID == userID {
          result := result + [UserEntry(baseURL, storage[k].initialLink, storage[k].shortLink)];
          keys := keys + [k];
          assert OwnedKeys(storage, userID) - (rest - {k}) == done + {k};
        } else {
          assert OwnedKeys(storage, userID) - (rest - {k}) == done;
        }
        rest := rest - {k};
      }
      assert EnumeratesOwner(keys, result, storage, userID, baseURL);
    }

    method WriteListShortURL(links: seq<ShortURLByUser>) returns (err: Option<Error>)
      requires Valid()
      modifies this
      ensures Valid()
      ensures storage == BatchWritten(old(storage), links, |links|)
      ensures err == None
    {
      for i := 0 to |links|
        invariant Valid()
        invariant storage == BatchWritten(old(storage), links, i)
      {
        storage := storage[links[i].shortLink := BatchRecord(links[i])];
      }
      return None;
    }

    /** Deletion is not implemented by this backend: nothing changes. */
    method DeleteShortURLByUser(link: string, id: uint32) returns (err: Option<Error>)
      ensures err == None
    {
      err := None;
    }

    method PingDB() returns (err: Option<Error>)
      ensures err == Some(New(PING_UNSUPPORTED))
    {
      return Some(New(PING_UNSUPPORTED));
    }
  }

  /** A fresh link, once written, is found under its short link with its initial link. */
  lemma WriteThenLookup(m: map<string, ShortURL>, s: ShortURL)
    requires !HasInitialLink(m, s.initialLink)
    ensures Lookup(Written(m, s), s.shortLink) == (s.initialLink, None)
    ensures forall k :: k != s.shortLink ==> Lookup(Written(m, s), k) == Lookup(m, k)
  {
  }

  /**
   * A second owner shortening a stored URL: their record is dropped, so the
   * code they are given resolves to "not found".
   */
  lemma WriteOfStoredLinkNotFound(m: map<string, ShortURL>, s: ShortURL)
    requires HasInitialLink(m, s.initialLink) && s.shortLink !in m
    ensures Written(m, s) == m
    ensures Lookup(Written(m, s), s.shortLink) == ("", Some(New(NOT_FOUND)))
  {
  }

  /** Writing the same record again changes nothing. */
  lemma WriteIdempotent(m: map<string, ShortURL>, s: ShortURL)
    ensures Written(Written(m, s), s) == Written(m, s)
  {
    if !HasInitialLink(m, s.initialLink) {
      assert Written(m, s)[s.shortLink].initialLink == s.initialLink;
    }
  }

  /** A batch keeps every record under its own short link. */
  lemma {:induction false} BatchWrittenKeyed(m: map<string, ShortURL>, links: seq<ShortURLByUser>, n: nat)
    requires n <= |links| && KeyedByShortLink(m)
    ensures KeyedByShortLink(BatchWritten(m, links, n))
  {
    if n > 0 {
      BatchWrittenKeyed(m, links, n - 1);
    }
  }

  /**
   * After the first n items, a key holds the record of the LAST of them with
   * that short link; a key none of them names keeps its old record, or stays absent.
   */
  lemma {:induction false} BatchLastWins(m: map<string, ShortURL>, links: seq<ShortURLByUser>, n: nat, k: string)
    requires n <= |links|
    ensures var b, r := BatchWritten(m, links, n), LastIndexBelow(links, k, n);
      && (r >= 0 ==> k in b && b[k] == BatchRecord(links[r]))
      && (r == -1 ==> (k in b <==> k in m) && (k in m ==> b[k] == m[k]))
  {
    if n > 0 {
      BatchLastWins(m, links, n - 1, k);
    }
  }
}
