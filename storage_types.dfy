/**
 * The records of package storage (internal/app/storage/storage.go) and the
 * configuration values the storage reads from configs.Cfg.
 */
module StorageTypes {
  import opened Bytes

  /** ShortURL: one stored link. */
  datatype ShortURL = ShortURL(initialLink: string, shortLink: string, userID: uint32)

  /** ShortURLByUser: one item of a batch request or of a per-user listing. */
  datatype ShortURLByUser = ShortURLByUser(shortLink: string, initialLink: string, correlationID: string)

  /** The fields of configs.Cfg the storage engine reads; fixed at start-up. */
  datatype Config = Config(baseURL: string, fileStoragePath: string, databaseDSN: string)

  const PING_UNSUPPORTED := "this type of storage does not support the ping operation"

  /** BaseURL + "/" + shortLink: the address a listing or a batch reports. */
  function FullLink(baseURL: string, shortLink: string): string
  {
    baseURL + "/" + shortLink
  }

  /** Under one base URL, distinct short links give distinct addresses. */
  lemma FullLinkInjective(baseURL: string, a: string, b: string)
    requires FullLink(baseURL, a) == FullLink(baseURL, b)
    ensures a == b
  {
    var n := |baseURL| + 1;
    assert FullLink(baseURL, a)[n..] == a;
    assert FullLink(baseURL, b)[n..] == b;
  }

  /** setShortLink: only the ShortLink field changes. */
  function SetShortLink(l: ShortURLByUser, value: string): (r: ShortURLByUser)
    ensures r.shortLink == value
    ensures r.initialLink == l.initialLink && r.correlationID == l.correlationID
  {
    l.(shortLink := value)
  }

  /** The listing entry for a stored link: the full address and the initial link. */
  function UserEntry(baseURL: string, initialLink: string, shortLink: string): ShortURLByUser
  {
    ShortURLByUser(FullLink(baseURL, shortLink), initialLink, "")
  }
}
