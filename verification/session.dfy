/** The cached-session check `isTokenExpired`: a stored token is treated as expired one
    hour before its recorded expiry, and a record without an expiry is always expired. */
module Session {
  import opened Wrappers

  /** One hour, the safety margin before the recorded expiry. */
  const MarginMs: int := 3600000

  /** A stored token record; `expiresAt` is `None` when the field is absent or `null`. */
  datatype TokenRecord = TokenRecord(accessToken: string, expiresAt: Option<int>)

  /** `!tokenData || !tokenData.expiresAt` (a zero expiry is falsy too), otherwise
      `now >= expiresAt - 3600000`. */
  function IsTokenExpired(record: Option<TokenRecord>, nowMs: int): (expired: bool)
    ensures !expired <==> (record.Some? && record.value.expiresAt.Some?
      && record.value.expiresAt.value != 0 && nowMs < record.value.expiresAt.value - MarginMs)
  {
    match record
    case None => true
    case Some(t) =>
      match t.expiresAt
      case None => true
      case Some(e) => e == 0 || nowMs >= e - MarginMs
  }

  /** Once expired, a record stays expired as time goes on. */
  lemma ExpiryIsPermanent(record: Option<TokenRecord>, nowMs: int, laterMs: int)
    requires nowMs <= laterMs && IsTokenExpired(record, nowMs)
    ensures IsTokenExpired(record, laterMs)
  {
  }
}
