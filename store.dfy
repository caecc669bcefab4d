/**
 * `MysqlStore`: the store object, its lazily created connection pool and the
 * table its operations read and write. The database is modelled by the table
 * semantics of the SQL statements (module SessionTable); the clock is the
 * `now` parameter of each operation.
 */
module Store {
  import opened Wrappers
  import opened Expiry
  import opened SessionTable
  import opened History

  /** The default sweep interval, 15 minutes in milliseconds. */
  const FIFTEEN_MINUTES: int := 15 * 60 * 1000

  /**
   * The constructor's options: `clean` (the sweep interval; None when absent)
   * and the connection settings handed verbatim to the pool.
   */
  datatype Options = Options(clean: Option<int>, connection: map<string, string>)

  /** `(!options.clean) ? FIFTEEN_MINUTES : options.clean`: never zero. */
  function CleanInterval(options: Options): (r: int)
    ensures r != 0
    ensures options.clean.Some? && options.clean.value != 0 ==> r == options.clean.value
    ensures options.clean.None? || options.clean.value == 0 ==> r == FIFTEEN_MINUTES
  {
    if options.clean.None? || options.clean.value == 0 then FIFTEEN_MINUTES else options.clean.value
  }

  /** A connection pool handle, made from the store's options. */
  class Pool {
    const options: Options

    constructor (options: Options)
      ensures this.options == options
    {
      this.options := options;
    }
  }

  class MysqlStore {
    const options: Options
    const cleanInterval: int
    var pool: Option<Pool>
    var table: Table
    /** The writes issued so far, oldest first. */
    ghost var history: seq<Op>

    /** The store's invariant: the interval is the defaulted one, the pool was made
        from the store's options, and the table is the replay of the writes. */
    ghost predicate Valid()
      reads this
    {
      && cleanInterval == CleanInterval(options)
      && (pool.Some? ==> pool.value.options == options)
      && table == Replay(history)
    }

    /**
     * `new MysqlStore(options)`. The initialising block runs `getConnection()`
     * at once, so the pool exists when the constructor returns; the table starts
     * empty, and the first cleanup on it removes nothing.
     */
    constructor (options: Options)
      ensures Valid()
      ensures this.options == options && cleanInterval == CleanInterval(options)
      ensures table == map[] && history == []
      ensures pool.Some? && fresh(pool.value)
    {
      this.options := options;
      cleanInterval := CleanInterval(options);
      pool := None;
      table := map[];
      history := [];
      new;
      var connection := GetConnection();
    }

    /** `getConnection`: creates the pool on first use, and returns that same handle afterwards. */
    method GetConnection() returns (connection: Pool)
      requires Valid()
      modifies this`pool
      ensures Valid()
      ensures pool == Some(connection) && connection.options == options
      ensures old(pool).Some? ==> connection == old(pool).value
      ensures old(pool).None? ==> fresh(connection)
    {
      if pool.None? {
        var created := new Pool(options);
        pool := Some(created);
      }
      connection := pool.value;
    }

    /**
     * `get(sid)` at time now: the stored session text, or None for null. It
     * writes nothing, and an id no set has written always reads as null.
     */
    method Get(sid: string, now: int) returns (session: Option<string>)
      requires Valid()
      modifies this`pool
      ensures Valid() && table == old(table) && history == old(history)
      ensures session == Lookup(table, sid, now)
      ensures !Written(history, sid) ==> session.None?
      ensures pool.Some? && (old(pool).Some? ==> pool == old(pool))
    {
      var connection := GetConnection();
      session := Lookup(table, sid, now);
      if !Written(history, sid) {
        NeverWrittenGetsNull(history, sid, now);
      }
    }

    /** One write statement sent through the store's pool: the table takes its effect. */
    method Execute(connection: Pool, op: Op)
      requires Valid()
      requires pool == Some(connection)
      modifies this`table, this`history
      ensures Valid()
      ensures table == Apply(old(table), op)
      ensures history == old(history) + [op]
    {
      ghost var written := history + [op];
      var updated := Apply(table, op);
      assert updated == Replay(written) by {
        ReplaySnoc(history, op);
      }
      table, history := updated, written;
    }

    /**
     * `set(sid, session, ttl)` with the clock at now: upserts the row with the
     * computed expiry and the session's JSON text; every other row is unchanged.
     */
    method Set(sid: string, session: Session, ttl: Option<int>, now: int, parseDate: string -> int)
      requires Valid()
      modifies this
      ensures Valid()
      ensures table == Upsert(old(table), sid, Row(Some(ExpiresOn(session, ttl, now, parseDate)), session.json))
      ensures history == old(history) + [SetOp(sid, ExpiresOn(session, ttl, now, parseDate), session.json)]
      ensures pool.Some? && (old(pool).Some? ==> pool == old(pool))
    {
      var expires := ExpiresOn(session, ttl, now, parseDate);
      var data := session.json;
      var connection := GetConnection();
      Execute(connection, SetOp(sid, expires, data));
    }

    /** `destroy(sid)`: deletes that id's row; an absent id is no error. */
    method Destroy(sid: string)
      requires Valid()
      modifies this
      ensures Valid()
      ensures table == Delete(old(table), sid)
      ensures history == old(history) + [DestroyOp(sid)]
      ensures pool.Some? && (old(pool).Some? ==> pool == old(pool))
    {
      var connection := GetConnection();
      Execute(connection, DestroyOp(sid));
    }

    /** `cleanup()` with the clock at now: deletes exactly the rows with `expires < now`. */
    method Cleanup(now: int)
      requires Valid()
      modifies this
      ensures Valid()
      ensures table == Sweep(old(table), now)
      ensures history == old(history) + [CleanupOp(now)]
      ensures pool.Some? && (old(pool).Some? ==> pool == old(pool))
    {
      var connection := GetConnection();
      Execute(connection, CleanupOp(now));
    }
  }

  /**
   * A client of the store: a session set with a ttl of one second reads back at
   * once, and is gone once a cleanup runs more than a second later.
   */
  method Lifecycle(options: Options, json: string, t0: int)
    requires json != ""
  {
    var store := new MysqlStore(options);
    var session := Session(NotSet, Some(json));
    store.Set("abc", session, Some(1000), t0, s => 0);
    var got := store.Get("abc", t0);
    assert got == Some(json);
    store.Cleanup(t0 + 1001);
    got := store.Get("abc", t0 + 1001);
    assert got.None?;
    assert "abc" !in store.table;
  }
}
