/**
 * The table `_mysql_session_store` and what each SQL statement of the store
 * does to it. The primary key on `id` is the map's key: a map holds at most
 * one row per id.
 */
module SessionTable {
  import opened Wrappers

  /** One row: the nullable `expires` (BIGINT) and `data` (TEXT) columns. */
  datatype Row = Row(expires: Option<int>, data: Option<string>)

  type Table = map<string, Row>

  /** `expires > now` in SQL: false when `expires` is NULL. */
  predicate Live(row: Row, now: int) {
    row.expires.Some? && row.expires.value > now
  }

  /** `expires < now` in SQL: false when `expires` is NULL. */
  predicate Expired(row: Row, now: int) {
    row.expires.Some? && row.expires.value < now
  }

  /** The truthiness test on `results[0][0].data`: NULL and the empty text fail it. */
  predicate HasData(row: Row) {
    row.data.Some? && row.data.value != ""
  }

  /**
   * `get`: the row's data when `id = sid AND expires > now` selects a row whose
   * data is truthy; null (None) in every other case.
   */
  function Lookup(t: Table, sid: string, now: int): (r: Option<string>)
    ensures sid !in t ==> r.None?
    ensures sid in t && (t[sid].expires.None? || t[sid].expires.value <= now) ==> r.None?
    ensures sid in t && t[sid].data.None? ==> r.None?
    ensures r.Some? <==> sid in t && Live(t[sid], now) && HasData(t[sid])
    ensures r.Some? ==> t[sid].data == r
  {
    if sid in t && Live(t[sid], now) && HasData(t[sid]) then t[sid].data else None
  }

  /**
   * `INSERT ... ON DUPLICATE KEY UPDATE expires=?, data=?`: inserts the row, or
   * overwrites both columns of the existing one.
   */
  function Upsert(t: Table, sid: string, row: Row): (r: Table)
    ensures r.Keys == t.Keys + {sid}
    ensures sid in r && r[sid] == row
    ensures forall k :: k in t && k != sid ==> r[k] == t[k]
  {
    t[sid := row]
  }

  /** `DELETE ... WHERE id = ?`: removes that id's row, if any. */
  function Delete(t: Table, sid: string): (r: Table)
    ensures r.Keys == t.Keys - {sid}
    ensures forall k :: k in r ==> r[k] == t[k]
  {
    t - {sid}
  }

  /** `DELETE ... WHERE expires < ?`: removes exactly the expired rows. */
  function Sweep(t: Table, now: int): (r: Table)
    ensures forall k :: k in r <==> k in t && !Expired(t[k], now)
    ensures forall k :: k in r ==> r[k] == t[k]
  {
    map k | k in t && !Expired(t[k], now) :: t[k]
  }

  /** A set followed by a get before the expiry returns the stored data. */
  lemma SetThenGet(t: Table, sid: string, expires: int, data: string, now: int)
    requires now < expires && data != ""
    ensures Lookup(Upsert(t, sid, Row(Some(expires), Some(data))), sid, now) == Some(data)
  {
  }

  /** Setting an id leaves what get returns for every other id unchanged. */
  lemma SetLeavesOthers(t: Table, sid: string, row: Row, other: string, now: int)
    requires other != sid
    ensures Lookup(Upsert(t, sid, row), other, now) == Lookup(t, other, now)
  {
  }

  /** Two sets on one id leave one row, the latest: an upsert, never a duplicate. */
  lemma SetTwiceKeepsLatest(t: Table, sid: string, first: Row, second: Row)
    ensures Upsert(Upsert(t, sid, first), sid, second) == Upsert(t, sid, second)
    ensures |Upsert(Upsert(t, sid, first), sid, second).Keys| == |t.Keys + {sid}|
  {
  }

  /** After destroy, get returns null, whenever it is asked. */
  lemma DestroyThenGet(t: Table, sid: string, now: int)
    ensures Lookup(Delete(t, sid), sid, now).None?
  {
  }

  /** Destroy of an absent id changes nothing, so destroy is idempotent. */
  lemma DestroyAbsentAndIdempotent(t: Table, sid: string)
    ensures sid !in t ==> Delete(t, sid) == t
    ensures Delete(Delete(t, sid), sid) == Delete(t, sid)
  {
  }

  /**
   * The boundary between get and cleanup: a row whose expiry equals now is
   * not returned by get and is not swept either.
   */
  lemma ExpiryEqualToNowBoundary(t: Table, sid: string, now: int)
    requires sid in t && t[sid].expires == Some(now)
    ensures Lookup(t, sid, now).None?
    ensures sid in Sweep(t, now) && Sweep(t, now)[sid] == t[sid]
  {
  }

  /**
   * A sweep at time `swept` is invisible to get at any `now >= swept - 1`:
   * every row it removes has expired for get already.
   */
  lemma SweepUnobservable(t: Table, swept: int, now: int, sid: string)
    requires swept <= now + 1
    ensures Lookup(Sweep(t, swept), sid, now) == Lookup(t, sid, now)
  {
  }

  /** A set whose expiry has passed is gone after cleanup, and get returns null. */
  lemma AgedRowIsSwept(t: Table, sid: string, expires: int, data: Option<string>, now: int)
    requires expires < now
    ensures sid !in Sweep(Upsert(t, sid, Row(Some(expires), data)), now)
    ensures Lookup(Sweep(Upsert(t, sid, Row(Some(expires), data)), now), sid, now).None?
  {
  }

  /** Two sweeps are one sweep at the later instant; in particular cleanup is idempotent. */
  lemma SweepTwice(t: Table, a: int, b: int)
    ensures Sweep(Sweep(t, a), b) == Sweep(t, if a <= b then b else a)
  {
  }
}
