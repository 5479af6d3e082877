/** Rows only ever move forward, so what a batch changed is what differs after it
(crates/doc/src/registry.rs:181-265; edge/src/registry-room.ts:452-490). */
module RowGrowth {
  import opened Wrappers
  import opened Hlc
  import opened RegistryCore
  import opened MergeLaws
  import opened Queue
  import opened QueueNotes
  import opened RowTable
  import opened RegistryRoom

  /** No field clock went back, and one is new or newer. */
  ghost predicate MoreWritten(r: Row, s: Row) {
    && (forall k :: k in r.clocks ==> k in s.clocks && r.clocks[k] <= s.clocks[k])
    && exists k :: k in s.clocks && (k in r.clocks ==> r.clocks[k] < s.clocks[k])
  }

  ghost predicate DeletedLater(r: Row, s: Row) {
    s.delHlc.Some? && Newer(s.delHlc.value, r.delHlc)
  }

  /** Created, deleted later, brought back, or written further. */
  ghost predicate Grew(r: Option<Row>, s: Option<Row>) {
    s.Some? && (r.Some? ==>
      || DeletedLater(r.value, s.value)
      || (r.value.delHlc == s.value.delHlc && !s.value.deleted && (r.value.deleted || MoreWritten(r.value, s.value))))
  }

  lemma {:induction false} MoreAndMore(r: Row, s: Row, t: Row)
    requires MoreWritten(r, s) && MoreWritten(s, t)
    ensures MoreWritten(r, t)
  {
    var k :| k in s.clocks && (k in r.clocks ==> r.clocks[k] < s.clocks[k]);
    assert k in t.clocks && (k in r.clocks ==> r.clocks[k] < t.clocks[k]);
  }

  lemma {:induction false} GrewOn(r: Option<Row>, s: Option<Row>, t: Option<Row>)
    requires Grew(r, s) && Grew(s, t)
    ensures Grew(r, t)
  {
    hide MoreWritten;
    if r.Some? && MoreWritten(r.value, s.value) && MoreWritten(s.value, t.value) {
      MoreAndMore(r.value, s.value, t.value);
    }
  }

  /** An op that changes a row moves it forward. */
  lemma {:induction false} ChangeGrows(row: Option<Row>, op: Op)
    ensures ApplyOp(row, op).changed ==> Grew(row, ApplyOp(row, op).row)
  {
    if row.Some? && ApplyOp(row, op).changed {
      var r := row.value;
      if op.op == Delete {
        if !r.deleted {
          DeleteBeatsLive(r, op.hlc);
        }
      } else if !r.deleted {
        var k :| k in Winners(r, op);
        WriteFieldsAt(r, op);
        var next := WriteFields(r, op);
        assert Lookup(next.clocks, k) == ClockAfter(r, op, k);
        forall j | j in r.clocks ensures j in next.clocks && r.clocks[j] <= next.clocks[j] {
          assert Lookup(next.clocks, j) == ClockAfter(r, op, j);
        }
        assert MoreWritten(r, next);
      }
    }
  }

  /** A batch touches a row exactly if it leaves another one: no later op undoes what one changed. */
  lemma {:induction false} TouchedDiffers(row: Option<Row>, ops: seq<Op>, key: Key)
    ensures Touches(row, ops, key) ==> Grew(row, FoldOps(row, ops, key))
    ensures !Touches(row, ops, key) ==> FoldOps(row, ops, key) == row
    decreases |ops|
  {
    if ops != [] && ops[0].key == key {
      var next := ApplyOp(row, ops[0]).row;
      ChangeGrows(row, ops[0]);
      TouchedDiffers(next, ops[1..], key);
      if ApplyOp(row, ops[0]).changed {
        if Touches(next, ops[1..], key) {
          GrewOn(row, next, FoldOps(next, ops[1..], key));
        }
      } else {
        UnchangedIsSame(row, ops[0]);
      }
      hide Grew, ApplyOp;
    } else if ops != [] {
      TouchedDiffers(row, ops[1..], key);
    }
  }

  lemma {:induction false} GrewDiffers(r: Option<Row>, s: Option<Row>)
    ensures Grew(r, s) ==> Bare(r) != Bare(s)
    ensures Grew(Bare(r), Bare(s)) ==> Bare(r) != Bare(s)
  {
  }

  /** What a push broadcasts is what differs: a row goes out exactly if, its position aside, it is not
  what it was. */
  lemma {:induction false} BroadcastIsDifference(s: Server, ops: seq<Op>, s': Server, touched: Table, k: Key)
    requires RoomMerged(s, ops, s', touched)
    ensures k in touched <==> Bare(RowAt(s'.rows, k)) != Bare(RowAt(s.rows, k))
  {
    assert PushedRow(RowAt(s.rows, k), ops, k, RowAt(touched, k), s'.seqNo);
    TouchedDiffers(RowAt(s.rows, k), ops, k);
    GrewDiffers(RowAt(s.rows, k), FoldOps(RowAt(s.rows, k), ops, k));
    hide Grew, FoldOps, Touches;
  }
}
