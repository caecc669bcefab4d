# koa-mysql-session: a model of the MySQL session store

The package stores the sessions of a Koa web application in one MySQL table,
`_mysql_session_store`, with columns `id`, `expires` and `data`. The store object
`MysqlStore` has four operations:

- `get` reads a session that has not expired;
- `set` upserts a session with an expiry computed by `getExpiresOn`;
- `destroy` deletes a session;
- `cleanup` sweeps expired rows, at a configurable interval.

The project models all of this in Dafny. The database is replaced by what each
SQL statement does to the table. The clock is an explicit `now` parameter.

Modules:

- `Wrappers` (wrappers.dfy): `Option`. It stands for the nullable columns and for
  JavaScript's null / undefined.
- `Expiry` (expiry.dfy): the expiry rule `getExpiresOn`. It also holds the session
  as the store sees it: the value at `session.cookie.expires` with its JavaScript
  truthiness, and the text `JSON.stringify` produces.
- `SessionTable` (table.dfy): the table as a `map<string, Row>`. A map holds at
  most one row per id, which is the primary key. The module gives the meaning of
  the SELECT, the upsert, the delete by id and the expiry sweep, and lemmas about
  how they combine. One lemma covers the boundary: `get` selects `expires > now` and
  `cleanup` deletes `expires < now`, so a row that expires exactly at `now` is
  neither returned nor swept.
- `History` (history.dfy): the table after any sequence of writes, starting from an
  empty table. Induction proofs show that each id's row is the one its most recent
  `set` wrote, that a `destroy` removes it for good, and that an id never written
  always reads as null.
- `Store` (store.dfy): the class `MysqlStore`. It holds:
  - a `table` field;
  - the optional, lazily created `pool` handle;
  - the defaulted clean interval;
  - a ghost history of writes, tied to the table by `Valid()`.

  Each method states the new table in terms of the old one. It also states that
  the pool exists afterwards and is the same handle as before, if there was one.
  Every write goes through `Execute`, which requires that the connection is the
  store's own pool. `Lifecycle` is a client that walks through one session's life.

Choices where the code could be read more than one way:

- The constructor runs `co(function*(){...}).call(this)`. This only runs the block
  with the store as `this` under the thunk-returning `co` (version 3). The model
  assumes that reading. So `getConnection()` runs inside the constructor, and the
  pool exists when the constructor returns.
- The constructor's initial `CREATE TABLE IF NOT EXISTS` and `cleanup()` act on an
  empty table, where they change nothing.
- `get` tests `results[0][0].data` for truthiness, so a stored empty text reads as
  null, like a NULL `data`.
- `get` parses the stored text with `JSON.parse` itself (index.js:62). That parse is
  not modelled: the model's `get` returns the stored JSON text.

## Model

| member | source | states |
|---|---|---|
| `Expiry.EffectiveTtl` | index.js:16 | a missing or zero ttl becomes 45 minutes (45*60*1000 ms); any other ttl is kept; the result is never zero |
| `Expiry.ExpiresOn` | index.js:14-29 | a Date cookie expiry is used as-is; a truthy number, `true` or a string is converted (a number is its own time value, `true` is 1 ms, a string goes through the date parser); with no truthy cookie expiry the result is now plus the defaulted ttl |
| `Expiry.CookieExpiryIgnoresTtlAndClock` | index.js:18-23 | with a truthy cookie expiry, the result is the same for every ttl and every clock reading |
| `Expiry.FallbackIsRelativeToNow` | index.js:24-27 | with no cookie expiry and a missing or positive ttl, the expiry lies strictly after now |
| `SessionTable.Lookup` | index.js:57-65 | get returns null when the id is absent, when expires is NULL or at most now, or when data is NULL (or empty); otherwise it returns exactly the row's data |
| `SessionTable.Upsert` | index.js:7 | after the upsert the ids are the old ids plus sid; sid's row holds the new expires and data; every other row is unchanged |
| `SessionTable.Delete` | index.js:8 | the delete removes sid and only sid; all remaining rows are unchanged |
| `SessionTable.Sweep` | index.js:9 | a row survives the sweep if and only if its expires is NULL or not below now; survivors are unchanged |
| `SessionTable.SetThenGet` | index.js:57-73 | after a set with non-empty data, a get at any time before the expiry returns that data |
| `SessionTable.SetLeavesOthers` | index.js:7 | a set on one id does not change what get returns for any other id |
| `SessionTable.SetTwiceKeepsLatest` | index.js:7 | two sets on one id leave the same table as the second set alone, with one row for the id (upsert, not a duplicate insert) |
| `SessionTable.DestroyThenGet` | index.js:75-78 | after destroy, get on that id returns null at every time |
| `SessionTable.DestroyAbsentAndIdempotent` | index.js:8 | destroy of an absent id leaves the table unchanged; a second destroy changes nothing |
| `SessionTable.ExpiryEqualToNowBoundary` | index.js:6-9 | a row whose expires equals now is not returned by get at now and survives a sweep at now unchanged |
| `SessionTable.SweepUnobservable` | index.js:6-9 | a sweep at time s never changes what get returns at any time now with s <= now + 1 |
| `SessionTable.AgedRowIsSwept` | index.js:41-45 | a row set with an expiry before now is gone after cleanup at now, and get returns null |
| `SessionTable.SweepTwice` | index.js:9 | two sweeps equal one sweep at the later instant, so cleanup is idempotent |
| `History.RowIsLastWrite` | index.js:5-9 | after any sequence of writes from the empty table, an id's row is exactly the one written by its most recent set; an id whose latest write is a destroy, or that has none, has no row |
| `History.SurvivesWithoutLaterWrites` | index.js:5-9 | a set that no later set or destroy of that id overrides, and that no later cleanup has passed, is still in the table unchanged |
| `History.NeverWrittenHasNoRow` | index.js:5-9 | an id that no set wrote has no most recent write |
| `History.NeverWrittenGetsNull` | index.js:57-65 | for every id never written, get returns null at every time |
| `History.ReplayedRowsExpire` | index.js:67-71 | every row that store writes produce has a non-NULL expires |
| `Store.CleanInterval` | index.js:33 | the clean interval is options.clean when that is present and non-zero, 15 minutes otherwise; never zero |
| `Store.Pool.constructor` | index.js:36 | the pool is made from the store's options |
| `Store.MysqlStore.constructor` | index.js:31-55 | a new store has the defaulted clean interval and an empty table, and its pool was created by the constructor |
| `Store.MysqlStore.GetConnection` | index.js:34-39 | the first call creates a fresh pool from the options; later calls return the same handle and create nothing |
| `Store.MysqlStore.Execute` | index.js:71 | a write statement, sent through the store's own pool, replaces the table by its effect and is recorded in the history |
| `Store.MysqlStore.Get` | index.js:57-65 | get returns the table's lookup at now, leaves the table unchanged, and returns null for an id never written |
| `Store.MysqlStore.Set` | index.js:67-73 | set upserts sid with the computed expiry and the session's JSON text; no other row changes |
| `Store.MysqlStore.Destroy` | index.js:75-78 | destroy deletes sid's row only |
| `Store.MysqlStore.Cleanup` | index.js:41-45 | cleanup deletes exactly the rows whose expires is below now |

## Left out

- The MySQL client and pool (`co-mysql`) and the `co` generator plumbing are not
  modelled. Each query is the table effect of its SQL text, applied at once.
  Query results, database errors and their propagation are not modelled.
- `CREATE TABLE IF NOT EXISTS` is not modelled: the table starts empty. Rows that
  persist in the database from an earlier process are not modelled.
- The `setInterval` timer and the order in which the constructor's first cleanup
  runs among other requests (it runs once the create statement completes) are left
  out. `Cleanup` is a method that the caller invokes with an explicit `now`.
- Wall-clock reads (`new Date()`, `Date.now()`) are parameters. Each operation
  takes its `now`.
- `JSON.stringify` and `JSON.parse` are not modelled. The session carries its JSON
  text (None when stringify gives undefined), and get returns the stored text
  without parsing it.
- `new Date(string)` is the parameter `parseDate`, because its parsing rules are
  outside the store. Invalid dates (NaN), the time-value range limit of `new Date`,
  and non-integer numbers are not modelled: instants are unbounded integers, not
  IEEE doubles.
- Truthiness is modelled for the cookie expiry, the ttl and `options.clean` as
  "missing or zero, or the empty string". For the cookie expiry, `false` counts as
  missing and `true` as the number 1. NaN is not modelled. A ttl that is not a
  number (which `+` would concatenate) is not modelled.
- A cookie expiry that is an object other than a Date (an array, a plain object)
  is not modelled. `new Date` would convert it through its primitive value.
  `CookieExpires` covers only a Date, a number, a string, `true` and the falsy values.
- `new MysqlStore()` called without an options object is not modelled. The source
  throws a TypeError reading `options.clean` (index.js:33). `Options` is always
  present in the model.
- MySQL column limits are not modelled: VARCHAR(255) ids, 64-bit BIGINT and TEXT size.
- The collation of `id` comparisons, which is case-insensitive by default, is not
  modelled. Ids compare as exact strings.
- Concurrent requests racing on one id are not modelled. Sequential calls are last
  write wins, as `SetTwiceKeepsLatest` states.
