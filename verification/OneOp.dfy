/** When one op can stand for two on a row, and where `coalesce_ops` refuses though one could
(crates/doc/src/registry.rs:301-335). */
module OneOp {
  import opened Wrappers
  import opened Hlc
  import opened RegistryCore
  import opened MergeLaws
  import opened OpRewriting

  function Joint(row: Option<Row>, a: Op, b: Op): Option<Row> {
    ApplyOp(ApplyOp(row, a).row, b).row
  }

  function OpClock(op: Op, k: string): Option<Clock> {
    if k in Writes(op) then Some(ClockFor(op, k)) else None
  }

  /** `m` leaves every row, missing, live or dead, as `a` and then `b` would. */
  ghost predicate ActsAs(m: Op, a: Op, b: Op) {
    forall row :: ApplyOp(row, m).row == Joint(row, a, b)
  }

  ghost predicate Expressible(a: Op, b: Op) {
    exists m :: ActsAs(m, a, b)
  }

  /** `b` writes every field of `a`, later, or at the same clock and with the same value. */
  predicate Covers(b: Op, a: Op) {
    forall k :: k in Writes(a) ==> CoversField(b, a, k)
  }

  predicate CoversField(b: Op, a: Op, k: string)
    requires k in Writes(a)
  {
    && k in Writes(b)
    && (ClockFor(b, k) > ClockFor(a, k) || (ClockFor(b, k) == ClockFor(a, k) && Writes(b)[k] == Writes(a)[k]))
  }

  /** Exactly the pairs one op can stand for. */
  predicate OneWould(a: Op, b: Op) {
    match (a.op, b.op)
    case (Delete, Delete) => true
    case (Delete, Update) => Writes(b) == map[]
    case (Delete, Upsert) => Writes(b) == map[] && b.hlc <= a.hlc
    case (Update, Delete) => Writes(a) == map[]
    case (Upsert, Delete) => if Outlasts(a, b.hlc) then b.hlc <= a.hlc else Writes(a) == map[] && a.hlc <= b.hlc
    case (_, Update) => true
    case (Update, Upsert) => Covers(b, a)
    case (Upsert, Upsert) => b.hlc <= a.hlc || Covers(b, a)
  }

  function StandIn(a: Op, b: Op): Op {
    match (a.op, b.op)
    case (Delete, Delete) => if a.hlc < b.hlc then b else a
    case (Delete, _) => a
    case (_, Delete) => if a.op == Upsert && Outlasts(a, b.hlc) then a else b
    case (_, Update) => Merged(a, b, a.op, a.hlc)
    case (_, Upsert) => if a.op == Upsert && b.hlc <= a.hlc then Merged(a, b, Upsert, a.hlc) else b
  }

  // ── where one op would do ─────────────────────────────────────────────────

  lemma {:induction false} CoveredWrites(base: Row, a: Op, b: Op)
    requires Covers(b, a)
    ensures WriteFields(WriteFields(base, a), b) == WriteFields(base, b)
  {
    var mid := WriteFields(base, a);
    WriteFieldsAt(base, a);
    WriteFieldsAt(base, b);
    WriteFieldsAt(mid, b);
    forall k
      ensures Lookup(WriteFields(mid, b).fields, k) == Lookup(WriteFields(base, b).fields, k)
      ensures Lookup(WriteFields(mid, b).clocks, k) == Lookup(WriteFields(base, b).clocks, k)
    {
      assert Lookup(mid.clocks, k) == ClockAfter(base, a, k) && Lookup(mid.fields, k) == FieldAfter(base, a, k);
    }
    SameRow(WriteFields(mid, b), WriteFields(base, b));
  }

  lemma {:induction false} CoveredActs(row: Option<Row>, a: Op, b: Op)
    requires a.key == b.key && a.op != Delete && b.op == Upsert && Covers(b, a) && (a.op == Upsert ==> a.hlc < b.hlc)
    ensures ApplyOp(row, b).row == Joint(row, a, b)
  {
    var base := WriteBase(row, a.key);
    CoveredWrites(base, a, b);
    KeepsKeys(base, a);
    hide WriteFields, Winners, Covers;
  }

  lemma {:induction false} EmptyWrites(base: Row, op: Op)
    requires Writes(op) == map[]
    ensures WriteFields(base, op) == base && Winners(base, op) == {}
  {
    assert Winners(base, op) == {};
    NoWinners(base, op);
  }

  lemma {:induction false} DeletesAct(row: Option<Row>, a: Op, b: Op)
    requires a.key == b.key && a.op == Delete && b.op == Delete
    ensures ApplyOp(row, if a.hlc < b.hlc then b else a).row == Joint(row, a, b)
  {
  }

  lemma {:induction false} DeleteFirstActs(row: Option<Row>, a: Op, b: Op)
    requires a.key == b.key && a.op == Delete && b.op != Delete && Writes(b) == map[] && (b.op == Upsert ==> b.hlc <= a.hlc)
    ensures ApplyOp(row, a).row == Joint(row, a, b)
  {
    var mid := ApplyOp(row, a).row;
    EmptyWrites(mid.value, b);
  }

  lemma {:induction false} DeleteLastActs(row: Option<Row>, a: Op, b: Op)
    requires a.key == b.key && a.op != Delete && b.op == Delete && Writes(a) == map[] && (a.op == Upsert ==> a.hlc <= b.hlc)
    ensures ApplyOp(row, b).row == Joint(row, a, b)
  {
    var base := WriteBase(row, a.key);
    EmptyWrites(base, a);
    DeleteBeatsLive(base, b.hlc);
  }

  lemma {:induction false} OutlastingActs(row: Option<Row>, a: Op, b: Op)
    requires a.key == b.key && a.op == Upsert && b.op == Delete && Outlasts(a, b.hlc) && b.hlc <= a.hlc
    ensures ApplyOp(row, a).row == Joint(row, a, b)
  {
    var base := WriteBase(row, a.key);
    var after := WriteFields(base, a);
    WriteFieldsAt(base, a);
    var k :| k in Writes(a) && ClockFor(a, k) >= b.hlc;
    assert Lookup(after.clocks, k) == ClockAfter(base, a, k);
    DeleteBeatsLive(after, b.hlc);
  }

  lemma {:induction false} StandInActs(a: Op, b: Op)
    requires a.key == b.key && OneWould(a, b)
    ensures ActsAs(StandIn(a, b), a, b)
  {
    forall row ensures ApplyOp(row, StandIn(a, b)).row == Joint(row, a, b) {
      if a.op == Delete && b.op == Delete {
        DeletesAct(row, a, b);
      } else if a.op == Delete {
        DeleteFirstActs(row, a, b);
      } else if b.op == Delete {
        if a.op == Upsert && Outlasts(a, b.hlc) {
          OutlastingActs(row, a, b);
        } else {
          DeleteLastActs(row, a, b);
        }
      } else if b.op == Update || (a.op == Upsert && b.hlc <= a.hlc) {
        CoalesceExact(row, a, b, _ => true);
      } else {
        CoveredActs(row, a, b);
      }
    }
  }

  // ── where none does ───────────────────────────────────────────────────────

  /** A row the room could hold on which `m` does not act as the pair. */
  ghost predicate Differs(m: Op, a: Op, b: Op, row: Option<Row>) {
    (row.Some? ==> WellFormed(row.value) && row.value.key == a.key) && ApplyOp(row, m).row != Joint(row, a, b)
  }

  ghost predicate Fails(m: Op, a: Op, b: Op) {
    exists row :: Differs(m, a, b, row)
  }

  /** A live row that was revived from a tombstone at `h` and holds no field. */
  function Revived(key: Key, h: Clock): Row {
    Row(key, 0, false, Some(h), map[], map[])
  }

  /** What an op that brings a row to life gives a field. */
  lemma {:induction false} Birth(row: Option<Row>, op: Op, k: string)
    requires row.Some? ==> row.value.deleted
    requires ApplyOp(row, op).row.Some? && !ApplyOp(row, op).row.value.deleted
    ensures var r := ApplyOp(row, op).row.value;
      && Lookup(r.clocks, k) == OpClock(op, k)
      && Lookup(r.fields, k) == if k in Writes(op) && Writes(op)[k] != Null then Some(Writes(op)[k]) else None
  {
    WriteFieldsAt(WriteBase(row, op.key), op);
  }

  /** What is left of a field of `a` that `b` does not cover. */
  lemma {:induction false} JointField(row: Option<Row>, a: Op, b: Op, k: string)
    requires a.op != Delete && b.op == Upsert && k in Writes(a)
    requires k in Writes(b) ==> ClockFor(b, k) <= ClockFor(a, k)
    requires ApplyOp(row, a).row.Some? && !ApplyOp(row, a).row.value.deleted
    requires row.Some? && !row.value.deleted ==> row.value.clocks == map[] && row.value.fields == map[]
    ensures Joint(row, a, b).Some?
    ensures var r := Joint(row, a, b).value;
      && Lookup(r.clocks, k) == Some(ClockFor(a, k))
      && Lookup(r.fields, k) == if Writes(a)[k] != Null then Some(Writes(a)[k]) else None
  {
    var base := WriteBase(row, a.key);
    WriteFieldsAt(base, a);
    WriteFieldsAt(WriteFields(base, a), b);
    assert Lookup(WriteFields(base, a).clocks, k) == ClockAfter(base, a, k);
  }

  /** Upsert behind an upsert: whether `a` or only `b` brings the row to life tells. */
  lemma {:induction false} UpsertsDiffer(m: Op, a: Op, b: Op)
    requires a.key == b.key && a.op == Upsert && b.op == Upsert && a.hlc < b.hlc && !Covers(b, a)
    ensures Fails(m, a, b)
  {
    var k :| k in Writes(a) && !CoversField(b, a, k);
    var dead := Some(Tombstone(a.key, a.hlc));
    JointField(None, a, b, k);
    Birth(dead, b, k);
    if ApplyOp(None, m).row == Joint(None, a, b) && ApplyOp(dead, m).row == Joint(dead, a, b) {
      Birth(None, m, k);
      Birth(dead, m, k);
      assert false;
    }
    assert Differs(m, a, b, None) || Differs(m, a, b, dead);
  }

  /** Upsert behind an update: a missing row takes only `b`, a live one both. */
  lemma {:induction false} UpdateUpsertDiffer(m: Op, a: Op, b: Op)
    requires a.key == b.key && a.op == Update && b.op == Upsert && !Covers(b, a)
    ensures Fails(m, a, b)
  {
    var k :| k in Writes(a) && !CoversField(b, a, k);
    var blank := Some(Row(a.key, 0, false, None, map[], map[]));
    Birth(None, b, k);
    JointField(blank, a, b, k);
    if ApplyOp(None, m).row == Joint(None, a, b) {
      Birth(None, m, k);
      assert m.op == Upsert;
      WriteFieldsAt(blank.value, m);
      assert Lookup(ApplyOp(blank, m).row.value.clocks, k) == OpClock(m, k);
      assert Differs(m, a, b, blank);
    } else {
      assert Differs(m, a, b, None);
    }
  }

  /** A live row no delete at `h` beats still takes a write. */
  lemma {:induction false} TakesWrite(key: Key, h: Clock, op: Op)
    requires op.op != Delete && Writes(op) != map[]
    ensures var r := ApplyOp(Some(Revived(key, h)), op).row;
      r.Some? && !r.value.deleted && r.value.clocks != map[] && r.value.delHlc == Some(h) && !DeleteBeats(r.value, h)
  {
    var base := Revived(key, h);
    var k :| k in Writes(op);
    WriteFieldsAt(base, op);
    assert Lookup(WriteFields(base, op).clocks, k) == ClockAfter(base, op, k);
    DeleteBeatsLive(WriteFields(base, op), h);
  }

  /** An op that leaves a missing row dead is that delete. */
  lemma {:induction false} LeavesDead(m: Op, key: Key, h: Clock)
    requires ApplyOp(None, m).row == Some(Tombstone(key, h))
    ensures m.op == Delete && m.hlc == h
  {
  }

  /** A delete of a row just created with older writes leaves its tombstone. */
  lemma {:induction false} CreatedAndDeleted(a: Op, b: Op)
    requires a.key == b.key && a.op != Delete && b.op == Delete && (a.op == Upsert ==> !Outlasts(a, b.hlc))
    ensures Joint(None, a, b) == Some(Tombstone(a.key, b.hlc))
  {
    if a.op == Upsert {
      var blank := Row(a.key, 0, false, None, map[], map[]);
      var after := WriteFields(blank, a);
      WriteFieldsAt(blank, a);
      forall k | k in after.clocks ensures b.hlc > after.clocks[k] {
        assert Lookup(after.clocks, k) == ClockAfter(blank, a, k);
      }
      DeleteBeatsLive(after, b.hlc);
    }
  }

  lemma {:induction false} DeleteLastDiffers(m: Op, a: Op, b: Op)
    requires a.key == b.key && a.op != Delete && b.op == Delete && !OneWould(a, b)
    ensures Fails(m, a, b)
  {
    var live := Some(Revived(a.key, b.hlc));
    if a.op == Upsert && Outlasts(a, b.hlc) {
      OutlastedDelete(m, a, b);
    } else {
      CreatedAndDeleted(a, b);
      if ApplyOp(None, m).row == Joint(None, a, b) {
        LeavesDead(m, a.key, b.hlc);
        DeleteBeatsLive(live.value, b.hlc);
        if Writes(a) != map[] {
          TakesWrite(a.key, b.hlc, a);
          assert Differs(m, a, b, live);
        } else {
          var dead := Some(Tombstone(a.key, b.hlc));
          EmptyWrites(WriteBase(dead, a.key), a);
          assert Differs(m, a, b, dead);
        }
      } else {
        assert Differs(m, a, b, None);
      }
    }
  }

  lemma {:induction false} OutlastedDelete(m: Op, a: Op, b: Op)
    requires a.key == b.key && a.op == Upsert && b.op == Delete && Outlasts(a, b.hlc) && a.hlc < b.hlc
    ensures Fails(m, a, b)
  {
    var dead := Some(Tombstone(a.key, a.hlc));
    var blank := Row(a.key, 0, false, None, map[], map[]);
    var after := WriteFields(blank, a);
    var k :| k in Writes(a) && ClockFor(a, k) >= b.hlc;
    WriteFieldsAt(blank, a);
    assert Lookup(after.clocks, k) == ClockAfter(blank, a, k);
    DeleteBeatsLive(after, b.hlc);
    assert Joint(None, a, b) == Some(after) && Joint(dead, a, b) == Some(Tombstone(a.key, b.hlc));
    if ApplyOp(None, m).row == Joint(None, a, b) {
      assert m.op == Upsert;
      assert Differs(m, a, b, dead);
    } else {
      assert Differs(m, a, b, None);
    }
  }

  lemma {:induction false} DeleteFirstDiffers(m: Op, a: Op, b: Op)
    requires a.key == b.key && a.op == Delete && b.op != Delete && !OneWould(a, b)
    ensures Fails(m, a, b)
  {
    if b.op == Upsert && a.hlc < b.hlc {
      // The revived row remembers its tombstone; no single op makes a missing row do so.
      assert Joint(None, a, b).value.delHlc == Some(a.hlc) && !Joint(None, a, b).value.deleted;
      assert Differs(m, a, b, None);
    } else {
      var live := Some(Revived(a.key, a.hlc));
      assert Joint(None, a, b) == Some(Tombstone(a.key, a.hlc));
      if ApplyOp(None, m).row == Joint(None, a, b) {
        LeavesDead(m, a.key, a.hlc);
        DeleteBeatsLive(live.value, a.hlc);
        TakesWrite(a.key, a.hlc, b);
        assert Differs(m, a, b, live);
      } else {
        assert Differs(m, a, b, None);
      }
    }
  }

  lemma {:induction false} NoneWould(m: Op, a: Op, b: Op)
    requires a.key == b.key && !OneWould(a, b)
    ensures Fails(m, a, b)
  {
    if a.op == Delete {
      DeleteFirstDiffers(m, a, b);
    } else if b.op == Delete {
      DeleteLastDiffers(m, a, b);
    } else if a.op == Upsert {
      UpsertsDiffer(m, a, b);
    } else {
      UpdateUpsertDiffer(m, a, b);
    }
  }

  /** One op can stand for the pair on every row exactly under `OneWould`; where it cannot, every
  op differs on some row the room could hold. */
  lemma {:induction false} ExpressibleIff(a: Op, b: Op)
    requires a.key == b.key
    ensures Expressible(a, b) <==> OneWould(a, b)
    ensures !OneWould(a, b) ==> forall m :: Fails(m, a, b)
  {
    if OneWould(a, b) {
      StandInActs(a, b);
    } else {
      forall m ensures !ActsAs(m, a, b) && Fails(m, a, b) {
        NoneWould(m, a, b);
        var row :| Differs(m, a, b, row);
      }
    }
  }

  /** What `coalesce_ops` refuses although one op would do: pairs with a delete that leave one of
  the two no say, and upserts that repeat a write at its own clock. */
  predicate NeedlesslyRefused(a: Op, b: Op) {
    OneWould(a, b) && (a.op == Delete || b.op == Delete || !Shadows(b, a))
      && (a.op != Delete && b.op != Delete ==> b.op == Upsert && (a.op == Upsert ==> a.hlc < b.hlc))
  }

  /** A refusal (the size check apart) is forced unless it is one of those. */
  lemma {:induction false} RefusalForcedIff(a: Op, b: Op)
    requires a.key == b.key
    ensures JointKind(a, b) == None && Expressible(a, b) <==> NeedlesslyRefused(a, b)
    ensures JointKind(a, b).Some? ==> Expressible(a, b)
  {
    ExpressibleIff(a, b);
  }

  function Tick(ms: nat): Clock {
    Position(EncodeHlc(ms, 0, "d"))
  }

  lemma {:induction false} Ticks(i: nat, j: nat)
    requires i < j < 10_000_000_000_000
    ensures Tick(i) < Tick(j)
  {
    EncodeOrder(i, 0, "d", j, 0, "d");
  }

  /** Two deletes of one row, and a repeated write under a later op clock: both are refused, and
  one op would do. */
  lemma {:induction false} RefusedNeedlessly(key: Key)
    ensures var first, second := Op(key, Delete, None, Tick(1), None), Op(key, Delete, None, Tick(2), None);
      JointKind(first, second) == None && Expressible(first, second)
    ensures var writes := map["a" := Bool(true)];
      var first, second := Op(key, Upsert, Some(writes), Tick(1), None), Op(key, Upsert, Some(writes), Tick(2), Some(map["a" := Tick(1)]));
      JointKind(first, second) == None && Expressible(first, second)
  {
    hide Tick;
    var writes := map["a" := Bool(true)];
    var a, b := Op(key, Delete, None, Tick(1), None), Op(key, Delete, None, Tick(2), None);
    var c, d := Op(key, Upsert, Some(writes), Tick(1), None), Op(key, Upsert, Some(writes), Tick(2), Some(map["a" := Tick(1)]));
    Ticks(1, 2);
    ExpressibleIff(a, b);
    ExpressibleIff(c, d);
    assert "a" in Writes(c) && ClockFor(d, "a") == ClockFor(c, "a");
  }
}
