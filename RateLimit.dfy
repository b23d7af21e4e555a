/**
 * `ZendeskResponseRateLimitException`: the error the Zendesk client raises when the
 * server answers "too many requests"; it carries how many seconds to wait, read from
 * the `Retry-After` header.
 */
module RateLimit {
  import opened Wrappers
  import opened JavaText

  const RETRY_AFTER_HEADER: string := "Retry-After"
  /** Seconds to wait when the server does not say. */
  const DEFAULT_RETRY_AFTER: int := 60

  datatype RateLimitException = RateLimitException(retryAfter: int)

  /** The exception built from a response whose `Retry-After` header is `header`
      (`None` when the header is missing): `Long.valueOf` of the header, or the default
      when that throws `NumberFormatException`. */
  function FromResponse(header: Option<string>): (e: RateLimitException)
    ensures LONG_MIN <= e.retryAfter <= LONG_MAX
  {
    var parsed := if header.Some? then ParseInteger(header.value, LONG_MIN, LONG_MAX) else None;
    RateLimitException(parsed.GetOr(DEFAULT_RETRY_AFTER))
  }

  /** The copy constructor. */
  function Copy(e: RateLimitException): (c: RateLimitException)
    ensures c == e
  {
    RateLimitException(GetRetryAfter(e))
  }

  function GetRetryAfter(e: RateLimitException): int {
    e.retryAfter
  }

  /** A header that is an optional sign and decimal digits naming a `long` sets the
      delay to that number; a `+` sign and leading zeros are accepted as `Long.valueOf`
      accepts them. */
  lemma FromResponseParsed(header: string)
    requires IsDecimal(header) && LONG_MIN <= DecimalValue(header) <= LONG_MAX
    ensures FromResponse(Some(header)).retryAfter == DecimalValue(header)
    ensures header[0] == '-' ==> FromResponse(Some(header)).retryAfter <= 0
    ensures header[0] != '-' ==> FromResponse(Some(header)).retryAfter == DigitsValue(Unsigned(header))
  {
  }

  /** A header written the way Java prints a `long` is read back exactly. */
  lemma FromResponseDecimal(n: int)
    requires LONG_MIN <= n <= LONG_MAX
    ensures FromResponse(Some(DecimalString(n))).retryAfter == n
  {
    ParseDecimalString(n, LONG_MIN, LONG_MAX);
  }

  /** A missing header, or one that is not a decimal number in the `long` range, leaves
      the delay at 60 seconds. */
  lemma FromResponseDefault(header: Option<string>)
    requires header.None? || !IsDecimal(header.value) || !(LONG_MIN <= DecimalValue(header.value) <= LONG_MAX)
    ensures FromResponse(header).retryAfter == DEFAULT_RETRY_AFTER
  {
  }
}
