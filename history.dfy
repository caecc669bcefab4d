/**
 * The table after a sequence of store operations, starting from the empty
 * table `CREATE TABLE IF NOT EXISTS` leaves, and what that replay implies
 * about each id.
 */
module History {
  import opened Wrappers
  import opened SessionTable

  /** The writes the store issues: set's upsert, destroy's delete, cleanup's sweep. */
  datatype Op =
    | SetOp(sid: string, expires: int, data: Option<string>)
    | DestroyOp(sid: string)
    | CleanupOp(now: int)

  /** The effect of one operation on the table. */
  function Apply(t: Table, op: Op): (r: Table) {
    match op
    case SetOp(sid, expires, data) => Upsert(t, sid, Row(Some(expires), data))
    case DestroyOp(sid) => Delete(t, sid)
    case CleanupOp(now) => Sweep(t, now)
  }

  /** The table after the operations in order, from the empty table. */
  function Replay(ops: seq<Op>): (r: Table)
  {
    if ops == [] then map[] else Apply(Replay(ops[..|ops| - 1]), ops[|ops| - 1])
  }

  /** Replaying one more operation applies it to the table so far. */
  lemma ReplaySnoc(ops: seq<Op>, op: Op)
    ensures Replay(ops + [op]) == Apply(Replay(ops), op)
  {
    assert (ops + [op])[..|ops|] == ops;
  }

  /** Whether some set in the sequence wrote this id. */
  predicate Written(ops: seq<Op>, sid: string) {
    exists i :: 0 <= i < |ops| && ops[i].SetOp? && ops[i].sid == sid
  }

  /**
   * Reference definition of an id's row: the row of the most recent set or
   * destroy of that id (None when the most recent is a destroy, or there is none).
   * Sweeps are not consulted; they can only remove rows.
   */
  function LastWrite(ops: seq<Op>, sid: string): (r: Option<Row>)
  {
    if ops == [] then None
    else
      var op := ops[|ops| - 1];
      if op.SetOp? && op.sid == sid then Some(Row(Some(op.expires), op.data))
      else if op.DestroyOp? && op.sid == sid then None
      else LastWrite(ops[..|ops| - 1], sid)
  }

  /**
   * Every row in the replayed table is the one the id's most recent set wrote,
   * and an id whose most recent write is a destroy, or that has none, has no row.
   */
  lemma {:induction false} RowIsLastWrite(ops: seq<Op>, sid: string)
    ensures sid in Replay(ops) ==> LastWrite(ops, sid) == Some(Replay(ops)[sid])
    ensures LastWrite(ops, sid).None? ==> sid !in Replay(ops)
  {
    if ops != [] {
      var init := ops[..|ops| - 1];
      RowIsLastWrite(init, sid);
    }
  }

  /** A set that nothing later touches is still there, unless a later cleanup swept it. */
  lemma {:induction false} SurvivesWithoutLaterWrites(ops: seq<Op>, i: nat, sid: string)
    requires i < |ops| && ops[i].SetOp? && ops[i].sid == sid
    requires forall j :: i < j < |ops| ==> ops[j].CleanupOp? || ops[j].sid != sid
    requires forall j :: i < j < |ops| && ops[j].CleanupOp? ==> ops[j].now <= ops[i].expires
    ensures sid in Replay(ops) && Replay(ops)[sid] == Row(Some(ops[i].expires), ops[i].data)
  {
    if i < |ops| - 1 {
      var init := ops[..|ops| - 1];
      assert forall j :: i < j < |init| ==> init[j] == ops[j];
      SurvivesWithoutLaterWrites(init, i, sid);
    }
  }

  /** An id that no set ever wrote has no row. */
  lemma {:induction false} NeverWrittenHasNoRow(ops: seq<Op>, sid: string)
    requires !Written(ops, sid)
    ensures LastWrite(ops, sid).None?
  {
    if ops != [] {
      var init := ops[..|ops| - 1];
      assert !Written(init, sid) by {
        forall i | 0 <= i < |init| ensures !(init[i].SetOp? && init[i].sid == sid) {
          assert init[i] == ops[i];
        }
      }
      NeverWrittenHasNoRow(init, sid);
    }
  }

  /** For every id never written, get returns null, whatever the clock says. */
  lemma NeverWrittenGetsNull(ops: seq<Op>, sid: string, now: int)
    requires !Written(ops, sid)
    ensures Lookup(Replay(ops), sid, now).None?
  {
    NeverWrittenHasNoRow(ops, sid);
    RowIsLastWrite(ops, sid);
  }

  /** Every row in a replayed table carries an expiry: set always writes one. */
  lemma {:induction false} ReplayedRowsExpire(ops: seq<Op>, sid: string)
    requires sid in Replay(ops)
    ensures Replay(ops)[sid].expires.Some?
  {
    var init := ops[..|ops| - 1];
    var op := ops[|ops| - 1];
    if !(op.SetOp? && op.sid == sid) {
      assert sid in Replay(init) && Replay(ops)[sid] == Replay(init)[sid];
      ReplayedRowsExpire(init, sid);
    }
  }
}
