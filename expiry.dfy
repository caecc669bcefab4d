/**
 * The expiry rule of the session store (`getExpiresOn` in index.js).
 * Instants are integer milliseconds since the epoch.
 */
module Expiry {
  import opened Wrappers

  /** The fallback time to live, 45 minutes in milliseconds. */
  const FORTY_FIVE_MINUTES: int := 45 * 60 * 1000

  /**
   * What the store finds at `session.cookie.expires`.
   * NotSet covers every falsy value there: the session, its cookie or the
   * field being missing, null, undefined or false. TrueValue is `true`.
   */
  datatype CookieExpires =
    | NotSet
    | DateValue(ms: int)        // a Date object (always truthy)
    | NumberValue(n: int)       // a number; 0 is falsy
    | StringValue(s: string)    // a string; "" is falsy
    | TrueValue                 // the boolean true (always truthy)

  /**
   * A session object as the store sees it: its cookie expiry hint and the
   * text `JSON.stringify` makes of it (None when that is undefined, which the
   * client binds as SQL NULL).
   */
  datatype Session = Session(cookieExpires: CookieExpires, json: Option<string>)

  /** JavaScript truthiness of the value at `session.cookie.expires`. */
  predicate Truthy(c: CookieExpires) {
    match c
    case NotSet => false
    case DateValue(_) => true
    case NumberValue(n) => n != 0
    case StringValue(s) => s != ""
    case TrueValue => true
  }

  /**
   * `ttl || FORTY_FIVE_MINUTES`: a missing (None) or zero ttl becomes 45 minutes.
   */
  function EffectiveTtl(ttl: Option<int>): (r: int)
    ensures r != 0
    ensures ttl.Some? && ttl.value != 0 ==> r == ttl.value
    ensures ttl.None? || ttl.value == 0 ==> r == FORTY_FIVE_MINUTES
  {
    if ttl.Some? && ttl.value != 0 then ttl.value else FORTY_FIVE_MINUTES
  }

  /**
   * The instant a truthy cookie expiry stands for: a Date is used directly,
   * a number is the time value `new Date(n)` builds, `true` converts to the
   * number 1, and a string is parsed by `parseDate`, which stands for
   * `new Date(string)`.
   */
  function HintInstant(c: CookieExpires, parseDate: string -> int): (r: int)
    requires Truthy(c)
  {
    match c
    case DateValue(ms) => ms
    case NumberValue(n) => n
    case StringValue(s) => parseDate(s)
    case TrueValue => 1
  }

  /**
   * `getExpiresOn(session, ttl).valueOf()`: the cookie's expiry when it is
   * truthy, otherwise `now + ttl` with the defaulted ttl.
   */
  function ExpiresOn(session: Session, ttl: Option<int>, now: int, parseDate: string -> int): (r: int)
    ensures session.cookieExpires.DateValue? ==> r == session.cookieExpires.ms
    ensures session.cookieExpires.NumberValue? && session.cookieExpires.n != 0 ==> r == session.cookieExpires.n
    ensures session.cookieExpires.StringValue? && session.cookieExpires.s != "" ==> r == parseDate(session.cookieExpires.s)
    ensures session.cookieExpires.TrueValue? ==> r == 1
    ensures !Truthy(session.cookieExpires) && ttl.Some? && ttl.value != 0 ==> r == now + ttl.value
    ensures !Truthy(session.cookieExpires) && (ttl.None? || ttl.value == 0) ==> r == now + FORTY_FIVE_MINUTES
  {
    var ttl' := EffectiveTtl(ttl);
    if Truthy(session.cookieExpires) then HintInstant(session.cookieExpires, parseDate)
    else now + ttl'
  }

  /** A truthy cookie expiry decides alone: neither ttl nor the clock matters. */
  lemma CookieExpiryIgnoresTtlAndClock(session: Session, ttl1: Option<int>, ttl2: Option<int>,
                                      now1: int, now2: int, parseDate: string -> int)
    requires Truthy(session.cookieExpires)
    ensures ExpiresOn(session, ttl1, now1, parseDate) == ExpiresOn(session, ttl2, now2, parseDate)
  {
  }

  /** Without a cookie expiry, a missing or positive ttl puts the expiry strictly after now. */
  lemma FallbackIsRelativeToNow(session: Session, ttl: Option<int>, now: int, parseDate: string -> int)
    requires !Truthy(session.cookieExpires)
    requires ttl.None? || ttl.value > 0
    ensures ExpiresOn(session, ttl, now, parseDate) > now
  {
  }
}
