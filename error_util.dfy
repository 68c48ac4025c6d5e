/**
 * The error values of the short-link engine. Go's `error` interface becomes
 * one datatype: the two sentinels, the two wrapper structs of
 * internal/app/utils/error_util.go, errors.New, and the errors raised by the
 * libraries the core calls (encoding/hex, encoding/json, pgx and PostgreSQL).
 */
module ErrorUtil {
  import opened Optional

  datatype SentinelKind = UniqueLink | DeletedLink

  datatype Error =
    | Sentinel(kind: SentinelKind)
      /** InsertUniqueLinkError{Link, Err} */
    | InsertUniqueLink(link: string, err: Error)
      /** DeletedLinkError{ShortURL, Err} */
    | DeletedLinkErr(shortURL: string, err: Error)
      /** errors.New(msg) */
    | New(msg: string)
      /** encoding/hex InvalidByteError */
    | InvalidHexByte(c: char)
      /** encoding/hex ErrLength */
    | HexOddLength
      /** an encoding/json error while unmarshalling one line of the storage file */
    | JSONDecode(msg: string)
      /** pgx.ErrNoRows, returned by QueryRow(...).Scan when no row matches */
    | NoRows
      /** PostgreSQL unique_violation (SQLSTATE 23505) on the initial_link constraint */
    | UniqueViolation
      /** PostgreSQL string_data_right_truncation (SQLSTATE 22001) on a varchar(256) column */
    | ValueTooLong

  /** A Go-style result: a value, or the error that stopped the computation. */
  datatype Result<+T> = Ok(value: T) | Fail(err: Error)

  const ErrUniqueLink: Error := Sentinel(UniqueLink)
  const ErrDeletedLink: Error := Sentinel(DeletedLink)

  const UNIQUE_LINK_TEXT := "this link already exists"
  const DELETED_LINK_TEXT := "this link has been removed"

  /** The error a wrapper struct returns from Unwrap; other errors wrap nothing. */
  function Unwrap(e: Error): (r: Option<Error>)
    ensures r.Some? <==> e.InsertUniqueLink? || e.DeletedLinkErr?
    ensures r.Some? ==> r.value < e
  {
    match e
    case InsertUniqueLink(_, inner) => Some(inner)
    case DeletedLinkErr(_, inner) => Some(inner)
    case _ => None
  }

  /** The error at the end of e's Unwrap chain. */
  function Root(e: Error): (r: Error)
    ensures Unwrap(r) == None
    decreases e
  {
    if Unwrap(e).Some? then Root(Unwrap(e).value) else e
  }

  /**
   * errors.Is: e or some error reached from it through Unwrap equals target.
   * A sentinel wraps nothing, so it can match only at the end of the chain.
   */
  predicate Is(e: Error, target: Error)
    ensures target.Sentinel? ==> (Is(e, target) <==> Root(e) == target)
    decreases e
  {
    e == target || (Unwrap(e).Some? && Is(Unwrap(e).value, target))
  }

  /** No error matches both sentinels, so a conflict is never mistaken for a deletion. */
  lemma SentinelsExclusive(e: Error)
    ensures !(Is(e, ErrUniqueLink) && Is(e, ErrDeletedLink))
  {
  }

  /** IsErr lifts Is to a possibly-nil error: errors.Is(nil, target) is false. */
  predicate IsErr(e: Option<Error>, target: Error)
  {
    e.Some? && Is(e.value, target)
  }

  function NewInsertUniqueLinkError(l: string): (e: Error)
    ensures e.InsertUniqueLink? && e.link == l
    ensures Unwrap(e) == Some(ErrUniqueLink)
    ensures Is(e, ErrUniqueLink) && !Is(e, ErrDeletedLink)
    ensures Message(e) == UNIQUE_LINK_TEXT + ": " + l
  {
    InsertUniqueLink(l, ErrUniqueLink)
  }

  function NewDeletedLinkError(su: string): (e: Error)
    ensures e.DeletedLinkErr? && e.shortURL == su
    ensures Unwrap(e) == Some(ErrDeletedLink)
    ensures Is(e, ErrDeletedLink) && !Is(e, ErrUniqueLink)
    ensures Message(e) == DELETED_LINK_TEXT + ": " + su
  {
    DeletedLinkErr(su, ErrDeletedLink)
  }

  /** The upper-case hexadecimal digits of n, at least `width` of them (fmt's %0*X). */
  function UpperHex(n: nat, width: nat): (s: string)
    ensures |s| >= width
    decreases n + width
  {
    if n == 0 && width == 0 then ""
    else UpperHex(n / 16, if width > 0 then width - 1 else 0) + ["0123456789ABCDEF"[n % 16]]
  }

  /** fmt's %#U of a character: U+0067 'g' (the quoted form only for printable ASCII here). */
  function UnicodeNotation(c: char): string
  {
    "U+" + UpperHex(c as int, 4) + (if ' ' <= c <= '~' then " '" + [c] + "'" else "")
  }

  /** The text Error() returns. */
  function Message(e: Error): (r: string)
    ensures Unwrap(e).Some? ==> Message(Unwrap(e).value) + ": " <= r
    ensures e.InsertUniqueLink? ==> |e.link| <= |r| && r[|r| - |e.link|..] == e.link
    ensures e.DeletedLinkErr? ==> |e.shortURL| <= |r| && r[|r| - |e.shortURL|..] == e.shortURL
    decreases e
  {
    match e
    case Sentinel(UniqueLink) => UNIQUE_LINK_TEXT
    case Sentinel(DeletedLink) => DELETED_LINK_TEXT
    case InsertUniqueLink(l, inner) => Message(inner) + ": " + l
    case DeletedLinkErr(su, inner) => Message(inner) + ": " + su
    case New(msg) => msg
    case InvalidHexByte(c) => "encoding/hex: invalid byte: " + UnicodeNotation(c)
    case HexOddLength => "encoding/hex: odd length hex string"
    case JSONDecode(msg) => msg
    case NoRows => "no rows in result set"
    case UniqueViolation =>
      "ERROR: duplicate key value violates unique constraint \"shortened_links_initial_link_key\" (SQLSTATE 23505)"
    case ValueTooLong => "ERROR: value too long for type character varying(256) (SQLSTATE 22001)"
  }
}
