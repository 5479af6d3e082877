/** What re-applying, re-ordering and re-seeding registry ops does to a row. */
module MergeLaws {
  import opened Wrappers
  import opened Hlc
  import opened RegistryCore

  // ── re-applying ops ───────────────────────────────────────────────────────

  lemma {:induction false} NoWinners(base: Row, op: Op)
    requires Winners(base, op) == {}
    ensures WriteFields(base, op) == base
  {
    WriteFieldsAt(base, op);
    assert forall k :: Lands(base, op, k) <==> k in Winners(base, op);
    SameRow(WriteFields(base, op), base);
  }

  /** An op that reports no change leaves the row as it was. */
  lemma {:induction false} UnchangedIsSame(row: Option<Row>, op: Op)
    requires !ApplyOp(row, op).changed
    ensures ApplyOp(row, op).row == row
  {
    if row.Some? && !row.value.deleted && op.op != Delete {
      NoWinners(row.value, op);
    }
  }

  /** A field write that landed never lands again. */
  lemma {:induction false} WrittenIsSettled(base: Row, op: Op)
    ensures Winners(WriteFields(base, op), op) == {}
  {
    WriteFieldsAt(base, op);
    forall k | k in Writes(op)
      ensures !Lands(WriteFields(base, op), op, k)
    {
      assert Lookup(WriteFields(base, op).clocks, k) == ClockAfter(base, op, k);
    }
  }

  /** Re-applying an op at once is a no-op, whatever the row and the op are. */
  lemma {:induction false} ApplyTwice(row: Option<Row>, op: Op)
    ensures var once := ApplyOp(row, op).row; ApplyOp(once, op) == Applied(once, false)
  {
    if op.op != Delete {
      var blank := Row(op.key, 0, false, None, map[], map[]);
      var base := match row
        case None => blank
        case Some(r) => if r.deleted then r.(deleted := false, fields := map[], clocks := map[]) else r;
      WrittenIsSettled(base, op);
      NoWinners(WriteFields(base, op), op);
      if row.Some? && row.value.deleted {
        UnchangedIsSame(ApplyOp(row, op).row, op);
      }
    }
  }

  lemma {:induction false} DeleteBeatsLive(r: Row, h: Clock)
    requires !r.deleted
    ensures DeleteBeats(r, h) <==> Newer(h, r.delHlc) && forall k :: k in r.clocks ==> h > r.clocks[k]
  {
    assert forall k :: k in r.clocks ==> r.clocks[k] in AllClocks(r);
    var m := MaxClock(r);
    if m.Some? && m.value in r.clocks.Values {
      assert exists k :: k in r.clocks && r.clocks[k] == m.value;
    }
  }

  // ── what a merge does, clause by clause ───────────────────────────────────

  /** A delete lands on a missing row, on a tombstone it is later than, and on a live row none of whose
  clocks it fails to beat. */
  ghost predicate Deletes(row: Option<Row>, h: Clock) {
    row.Some? ==>
      && (row.value.delHlc.Some? ==> row.value.delHlc.value < h)
      && (!row.value.deleted ==> forall k :: k in row.value.clocks ==> row.value.clocks[k] < h)
  }

  /** An upsert writes to every row but a tombstone it is not later than; an update to live rows only. */
  ghost predicate Enters(row: Option<Row>, op: Op) {
    if row.Some? && !row.value.deleted then true
    else op.op == Upsert && (row.Some? && row.value.delHlc.Some? ==> row.value.delHlc.value < op.hlc)
  }

  /** A field write lands on a row that has no clock for the field, or an older one; a row just created
  or brought back has none. */
  ghost predicate Takes(row: Option<Row>, op: Op, k: string) {
    k in Writes(op) && (row.Some? && !row.value.deleted && k in row.value.clocks ==> row.value.clocks[k] < ClockFor(op, k))
  }

  /** The live row after the writes: its key and tombstone clock stay, each field that took a write has
  it and its clock, a null takes the field away, and all else is as it was. */
  ghost predicate Written(row: Option<Row>, op: Op, next: Row) {
    && !next.deleted
    && next.key == (if row.Some? then row.value.key else op.key)
    && next.seqNo == (if row.Some? then row.value.seqNo else 0)
    && next.delHlc == (if row.Some? then row.value.delHlc else None)
    && forall k {:trigger k in next.fields} {:trigger k in next.clocks} :: WrittenField(row, op, next, k)
  }

  ghost predicate WrittenField(row: Option<Row>, op: Op, next: Row, k: string) {
    var live := row.Some? && !row.value.deleted;
    if Takes(row, op, k) then
      && k in next.clocks && next.clocks[k] == ClockFor(op, k)
      && (k in next.fields <==> Writes(op)[k] != Null) && (k in next.fields ==> next.fields[k] == Writes(op)[k])
    else
      && (k in next.clocks <==> live && k in row.value.clocks) && (k in next.clocks ==> next.clocks[k] == row.value.clocks[k])
      && (k in next.fields <==> live && k in row.value.fields) && (k in next.fields ==> next.fields[k] == row.value.fields[k])
  }

  /** The merge of an op into a row, missing, live or dead, and whether it changes the row. */
  lemma {:induction false} ApplyTold(row: Option<Row>, op: Op)
    ensures var next, changed := ApplyOp(row, op).row, ApplyOp(row, op).changed;
      if op.op == Delete then
        && (changed <==> Deletes(row, op.hlc))
        && next == (
             if !changed then row
             else Some(Row(if row.Some? then row.value.key else op.key, if row.Some? then row.value.seqNo else 0,
                           true, Some(op.hlc), map[], map[])))
      else if Enters(row, op) then
        && next.Some? && Written(row, op, next.value)
        && (changed <==> row == None || row.value.deleted || exists k :: Takes(row, op, k))
      else
        next == row && !changed
  {
    if op.op == Delete {
      if row.Some? && !row.value.deleted {
        DeleteBeatsLive(row.value, op.hlc);
      }
    } else if Enters(row, op) {
      var base := match row
        case None => Row(op.key, 0, false, None, map[], map[])
        case Some(r) => if r.deleted then r.(deleted := false, fields := map[], clocks := map[]) else r;
      var next := WriteFields(base, op);
      WriteFieldsAt(base, op);
      forall k ensures WrittenField(row, op, next, k) && (Takes(row, op, k) <==> k in Winners(base, op)) {
        assert Lookup(next.fields, k) == FieldAfter(base, op, k) && Lookup(next.clocks, k) == ClockAfter(base, op, k);
      }
      assert next == base.(fields := next.fields, clocks := next.clocks);
      hide WriteFields, Winners;
    }
  }

  /** Every write of the op carries the op's own clock. */
  predicate SingleClock(op: Op) {
    op.clocks == None
  }

  /** The row already holds everything `w` could do to it. */
  predicate Settled(row: Option<Row>, w: Op) {
    match w.op
    case Delete => row.Some? && !DeleteBeats(row.value, w.hlc)
    case Upsert => row.Some? && (
      if row.value.deleted then !Newer(w.hlc, row.value.delHlc)
      else forall k :: k in Writes(w) ==> !Lands(row.value, w, k))
    case Update => row.Some? && !row.value.deleted ==>
      forall k :: k in Writes(w) ==> !Lands(row.value, w, k)
  }

  lemma {:induction false} SettledIsNoOp(row: Option<Row>, w: Op)
    ensures Settled(row, w) <==> ApplyOp(row, w) == Applied(row, false)
  {
    if Settled(row, w) && w.op != Delete && row.Some? && !row.value.deleted {
      assert Winners(row.value, w) == {};
      NoWinners(row.value, w);
    }
    if !Settled(row, w) && row.Some? && !row.value.deleted && w.op != Delete {
      var k :| k in Writes(w) && Lands(row.value, w, k);
      assert k in Winners(row.value, w);
    }
  }

  /** `b` writes every field of `a`, none at an older clock. */
  predicate AsNew(b: Op, a: Op) {
    forall k :: k in Writes(a) ==> k in Writes(b) && ClockFor(a, k) <= ClockFor(b, k)
  }

  /** Some write of `a` is too new for a delete at `h` to beat. */
  predicate Outlasts(a: Op, h: Clock) {
    exists k :: k in Writes(a) && ClockFor(a, k) >= h
  }

  /** After `b`, no row that took `a` would take it again: `b` neither brings a row to life without
  `a`'s fields, or with older ones, nor deletes a row that `a` would bring back. */
  predicate ReplaySafe(a: Op, b: Op) {
    match (a.op, b.op)
    case (Upsert, Upsert) => b.hlc <= a.hlc || AsNew(b, a)
    case (Update, Upsert) => AsNew(b, a)
    case (Upsert, Delete) => a.hlc <= b.hlc || Outlasts(a, b.hlc)
    case _ => true
  }

  /** Once a row holds all of `a`, a `b` that is replay-safe after `a` keeps it so, older or newer. */
  lemma {:induction false} SettledSurvives(row: Option<Row>, a: Op, b: Op)
    requires ReplaySafe(a, b)
    requires Settled(row, a)
    ensures Settled(ApplyOp(row, b).row, a)
  {
    if row.Some? && !row.value.deleted {
      LiveSurvives(row.value, a, b);
    } else if b.op == Upsert {
      BornSettled(row, a, b);
    }
  }

  lemma {:induction false} LiveSurvives(r: Row, a: Op, b: Op)
    requires ReplaySafe(a, b) && !r.deleted && Settled(Some(r), a)
    ensures Settled(ApplyOp(Some(r), b).row, a)
  {
    DeleteBeatsLive(r, a.hlc);
    DeleteBeatsLive(r, b.hlc);
    if b.op != Delete {
      var after := WriteFields(r, b);
      WriteFieldsAt(r, b);
      DeleteBeatsLive(after, a.hlc);
      forall k ensures Lookup(after.clocks, k) == ClockAfter(r, b, k) {
      }
      if a.op == Delete && Newer(a.hlc, r.delHlc) {
        var k :| k in r.clocks && !(a.hlc > r.clocks[k]);
        assert Lookup(after.clocks, k) == ClockAfter(r, b, k);
      }
    } else if a.op == Upsert && Outlasts(a, b.hlc) {
      var k :| k in Writes(a) && ClockFor(a, k) >= b.hlc;
      assert !Lands(r, a, k);
    }
  }

  lemma {:induction false} BornSettled(row: Option<Row>, a: Op, b: Op)
    requires ReplaySafe(a, b) && b.op == Upsert && Settled(row, a)
    requires row.Some? ==> row.value.deleted
    ensures Settled(ApplyOp(row, b).row, a)
  {
    var base := match row
      case None => Row(b.key, 0, false, None, map[], map[])
      case Some(r) => r.(deleted := false, fields := map[], clocks := map[]);
    var after := WriteFields(base, b);
    WriteFieldsAt(base, b);
    DeleteBeatsLive(after, a.hlc);
    forall k ensures Lookup(after.clocks, k) == ClockAfter(base, b, k) {
    }
  }

  /** Re-pushing `a` behind `b`, in whichever order their clocks stand, changes no row exactly when
  `b` is replay-safe after it. */
  lemma {:induction false} ReplayNoOpIff(a: Op, b: Op)
    requires a.key == b.key
    ensures ReplaySafe(a, b) <==> forall row :: ReplayIdle(row, a, b)
  {
    if ReplaySafe(a, b) {
      forall row ensures ReplayIdle(row, a, b) {
        ApplyTwice(row, a);
        SettledIsNoOp(ApplyOp(row, a).row, a);
        SettledSurvives(ApplyOp(row, a).row, a, b);
        SettledIsNoOp(ApplyOp(ApplyOp(row, a).row, b).row, a);
      }
    } else {
      ReplayReturns(a, b);
      assert !ReplayIdle(Untaken(a, b), a, b);
    }
  }

  predicate ReplayIdle(row: Option<Row>, a: Op, b: Op) {
    var done := ApplyOp(ApplyOp(row, a).row, b).row;
    ApplyOp(done, a) == Applied(done, false)
  }

  /** The row on which an unsafe replay shows: one `a` cannot touch, or, for a delete, none. */
  function Untaken(a: Op, b: Op): Option<Row> {
    if a.op == Update || b.op == Delete then None else Some(Tombstone(a.key, a.hlc))
  }

  /** Behind a `b` that is not replay-safe after it, `a` lands again there, and `b` does not undo it. */
  lemma {:induction false} ReplayReturns(a: Op, b: Op)
    requires a.key == b.key && !ReplaySafe(a, b)
    ensures var done := ApplyOp(ApplyOp(Untaken(a, b), a).row, b).row;
      ApplyOp(done, a).changed && ApplyOp(ApplyOp(done, a).row, b).row != done
  {
    if b.op == Delete {
      RowReturns(a, b);
    } else {
      FieldReturns(a, b);
    }
  }

  /** An upsert creates a row with nothing but older writes; an older delete removes it, and the
  upsert creates it again. */
  lemma {:induction false} RowReturns(a: Op, b: Op)
    requires a.key == b.key && a.op == Upsert && b.op == Delete && !Outlasts(a, b.hlc) && b.hlc < a.hlc
    ensures var done := ApplyOp(ApplyOp(None, a).row, b).row;
      ApplyOp(done, a).changed && ApplyOp(ApplyOp(done, a).row, b).row != done
  {
    var blank := Row(a.key, 0, false, None, map[], map[]);
    var after := WriteFields(blank, a);
    WriteFieldsAt(blank, a);
    forall k | k in after.clocks ensures b.hlc > after.clocks[k] {
      assert Lookup(after.clocks, k) == ClockAfter(blank, a, k);
    }
    DeleteBeatsLive(after, b.hlc);
    var done := ApplyOp(Some(after), b).row.value;
    assert done.deleted && done.delHlc == Some(b.hlc);
    DeleteBeatsLive(ApplyOp(Some(done), a).row.value, b.hlc);
  }

  /** A row `a` cannot touch and `b` brings to life lacks a field of `a`, or has it older. */
  lemma {:induction false} FieldReturns(a: Op, b: Op)
    requires a.key == b.key && b.op == Upsert && !ReplaySafe(a, b)
    ensures var done := ApplyOp(ApplyOp(Untaken(a, b), a).row, b).row;
      ApplyOp(done, a).changed && ApplyOp(ApplyOp(done, a).row, b).row != done
  {
    var k :| k in Writes(a) && (k !in Writes(b) || ClockFor(b, k) < ClockFor(a, k));
    var start := Untaken(a, b);
    var base := if start == None then Row(b.key, 0, false, None, map[], map[]) else start.value.(deleted := false);
    var done := WriteFields(base, b);
    assert ApplyOp(ApplyOp(start, a).row, b).row == Some(done);
    WriteFieldsAt(base, b);
    assert Lookup(done.clocks, k) == ClockAfter(base, b, k);
    var again := WriteFields(done, a);
    WriteFieldsAt(done, a);
    assert Lands(done, a, k) && k in Winners(done, a);
    assert Lookup(again.clocks, k) == Some(ClockFor(a, k));
    WriteFieldsAt(again, b);
    assert Lookup(WriteFields(again, b).clocks, k) == ClockAfter(again, b, k) == Some(ClockFor(a, k));
  }

  // ── re-seeding ────────────────────────────────────────────────────────────

  /** The shape every row made by `ApplyOp` has. */
  predicate WellFormed(r: Row) {
    && (r.deleted ==> r.delHlc.Some? && r.fields == map[] && r.clocks == map[])
    && (!r.deleted ==> forall k :: k in r.fields ==> k in r.clocks && r.fields[k] != Null)
  }

  lemma {:induction false} ApplyKeepsWellFormed(row: Option<Row>, op: Op)
    requires row.Some? ==> WellFormed(row.value)
    ensures ApplyOp(row, op).row.Some? ==> WellFormed(ApplyOp(row, op).row.value)
  {
  }

  /** A row as the op that recreates it, carrying its original clocks. */
  function RowToSeedOp(row: Row): Op {
    if row.deleted then
      Op(row.key, Delete, None, if row.delHlc.Some? then row.delHlc.value else SEED_CLOCK, None)
    else
      var m := MaxClock(row);
      Op(row.key, Upsert, Some(row.fields), if m.Some? then m.value else SEED_CLOCK, Some(row.clocks))
  }

  /** What a seed can carry of a row: no clocks of cleared fields, no old tombstone clock. */
  function Carried(r: Row): Row {
    if r.deleted then r.(seqNo := 0)
    else r.(seqNo := 0, delHlc := None, clocks := map k | k in r.fields.Keys && k in r.clocks :: r.clocks[k])
  }

  /** On the replica that made it, a seed changes nothing. */
  lemma {:induction false} SeedIsNoOpAtHome(r: Row)
    requires WellFormed(r)
    ensures ApplyOp(Some(r), RowToSeedOp(r)) == Applied(Some(r), false)
  {
    var s := RowToSeedOp(r);
    if !r.deleted {
      assert forall k :: k in r.fields ==> ClockFor(s, k) == r.clocks[k];
      assert Winners(r, s) == {};
      NoWinners(r, s);
    }
  }

  /** On a wiped server, a seed restores the row's fields, each with its own clock, or the
  tombstone with its clock. */
  lemma {:induction false} SeedRestores(r: Row)
    requires WellFormed(r)
    ensures ApplyOp(None, RowToSeedOp(r)) == Applied(Some(Carried(r)), true)
  {
    var s := RowToSeedOp(r);
    if !r.deleted {
      var blank := Row(r.key, 0, false, None, map[], map[]);
      WriteFieldsAt(blank, s);
      forall k
        ensures FieldAfter(blank, s, k) == Lookup(r.fields, k)
        ensures ClockAfter(blank, s, k) == Lookup(Carried(r).clocks, k)
      {
      }
      SameRow(WriteFields(blank, s), Carried(r));
    }
  }

  function SeedAll(start: Option<Row>, seeds: seq<Row>): Option<Row>
    decreases |seeds|
  {
    if seeds == [] then start
    else SeedAll(ApplyOp(start, RowToSeedOp(seeds[0])).row, seeds[1..])
  }

  /** `s` has value `v` in field `k`, written at clock `c`. */
  predicate Holds(s: Row, k: string, v: Value, c: Clock) {
    Lookup(s.fields, k) == Some(v) && Lookup(s.clocks, k) == Some(c)
  }

  /** Live replicas of one row that agree wherever their clocks do. */
  ghost predicate Compatible(key: Key, replicas: set<Row>) {
    && (forall s :: s in replicas ==> s.key == key && !s.deleted && WellFormed(s))
    && forall s, t, k, v, w, c :: s in replicas && t in replicas && Holds(s, k, v, c) && Holds(t, k, w, c) ==> v == w
  }

  /** `r` holds, per field, the newest write of any replica, and nothing else. */
  ghost predicate NewestOf(r: Row, key: Key, replicas: set<Row>) {
    && r == Row(key, 0, false, None, r.fields, r.clocks)
    && r.fields.Keys == r.clocks.Keys
    && (forall k, v, c :: Holds(r, k, v, c) ==> exists s :: s in replicas && Holds(s, k, v, c))
    && forall s, k, v, c :: s in replicas && Holds(s, k, v, c) ==> k in r.clocks && c <= r.clocks[k]
  }

  function Elems(seeds: seq<Row>): set<Row> {
    set s | s in seeds
  }

  /** One more seed on top of the newest-of the earlier ones. */
  lemma {:induction false} SeedStep(r: Row, key: Key, replicas: set<Row>, s: Row)
    requires s.key == key && !s.deleted && WellFormed(s) && NewestOf(r, key, replicas)
    ensures ApplyOp(Some(r), RowToSeedOp(s)).row.Some?
    ensures NewestOf(ApplyOp(Some(r), RowToSeedOp(s)).row.value, key, replicas + {s})
  {
    var op := RowToSeedOp(s);
    var next := WriteFields(r, op);
    WriteFieldsAt(r, op);
    forall k
      ensures Lookup(next.fields, k) == (if Lands(r, op, k) then Lookup(s.fields, k) else Lookup(r.fields, k))
      ensures Lookup(next.clocks, k) == (if Lands(r, op, k) then Lookup(s.clocks, k) else Lookup(r.clocks, k))
    {
    }
    SeedStepNewest(r, key, replicas, s, op, next);
  }

  lemma {:induction false} SeedStepNewest(r: Row, key: Key, replicas: set<Row>, s: Row, op: Op, next: Row)
    requires WellFormed(s) && !s.deleted && NewestOf(r, key, replicas) && op == RowToSeedOp(s)
    requires next == r.(fields := next.fields, clocks := next.clocks)
    requires forall k :: Lookup(next.fields, k) == if Lands(r, op, k) then Lookup(s.fields, k) else Lookup(r.fields, k)
    requires forall k :: Lookup(next.clocks, k) == if Lands(r, op, k) then Lookup(s.clocks, k) else Lookup(r.clocks, k)
    ensures NewestOf(next, key, replicas + {s})
  {
    forall k, v, c | Holds(next, k, v, c)
      ensures exists t :: t in replicas + {s} && Holds(t, k, v, c)
    {
      if Lands(r, op, k) {
        assert Holds(s, k, v, c);
      } else {
        assert Holds(r, k, v, c);
      }
    }
    forall t, k, v, c | t in replicas + {s} && Holds(t, k, v, c)
      ensures k in next.clocks && c <= next.clocks[k]
    {
      assert Lookup(next.clocks, k) == if Lands(r, op, k) then Lookup(s.clocks, k) else Lookup(r.clocks, k);
      if t in replicas {
        assert k in r.clocks && c <= r.clocks[k];
      }
    }
    forall k ensures k in next.fields <==> k in next.clocks {
      assert Lookup(next.fields, k) == if Lands(r, op, k) then Lookup(s.fields, k) else Lookup(r.fields, k);
      assert Lookup(next.clocks, k) == if Lands(r, op, k) then Lookup(s.clocks, k) else Lookup(r.clocks, k);
    }
    assert next.fields.Keys == next.clocks.Keys;
  }

  lemma {:induction false} SeedAllNewest(r: Row, key: Key, done: set<Row>, rest: seq<Row>)
    requires forall s :: s in rest ==> s.key == key && !s.deleted && WellFormed(s)
    requires NewestOf(r, key, done)
    ensures SeedAll(Some(r), rest).Some? && NewestOf(SeedAll(Some(r), rest).value, key, done + Elems(rest))
    decreases |rest|
  {
    if rest == [] {
      assert done + Elems(rest) == done;
    } else {
      SeedStep(r, key, done, rest[0]);
      SeedAllNewest(ApplyOp(Some(r), RowToSeedOp(rest[0])).row.value, key, done + {rest[0]}, rest[1..]);
      assert done + Elems(rest) == done + {rest[0]} + Elems(rest[1..]);
    }
  }

  /** At most one row is the newest-of. */
  lemma {:induction false} NewestUnique(r: Row, s: Row, key: Key, replicas: set<Row>)
    requires Compatible(key, replicas) && NewestOf(r, key, replicas) && NewestOf(s, key, replicas)
    ensures r == s
  {
    forall k
      ensures Lookup(r.fields, k) == Lookup(s.fields, k) && Lookup(r.clocks, k) == Lookup(s.clocks, k)
    {
      if k in r.fields {
        assert Holds(r, k, r.fields[k], r.clocks[k]);
      }
      if k in s.fields {
        assert Holds(s, k, s.fields[k], s.clocks[k]);
      }
    }
    SameRow(r, s);
  }

  /** Several replicas re-seeding one wiped row: whatever the order, and however often each
  seeds, the row ends as the per-field newest of them. */
  lemma {:induction false} ReseedConverges(key: Key, seeds: seq<Row>, seeds': seq<Row>)
    requires seeds != [] && Elems(seeds) == Elems(seeds') && Compatible(key, Elems(seeds))
    ensures SeedAll(None, seeds).Some? && NewestOf(SeedAll(None, seeds).value, key, Elems(seeds))
    ensures SeedAll(None, seeds) == SeedAll(None, seeds')
  {
    assert seeds[0] in Elems(seeds');
    SeedFirst(key, seeds);
    SeedFirst(key, seeds');
    NewestUnique(SeedAll(None, seeds).value, SeedAll(None, seeds').value, key, Elems(seeds));
  }

  lemma {:induction false} SeedFirst(key: Key, seeds: seq<Row>)
    requires seeds != [] && Compatible(key, Elems(seeds))
    ensures SeedAll(None, seeds).Some? && NewestOf(SeedAll(None, seeds).value, key, Elems(seeds))
  {
    var s := seeds[0];
    assert s in Elems(seeds);
    SeedRestores(s);
    var first := Carried(s);
    assert forall k, v, c :: Holds(first, k, v, c) <==> Holds(s, k, v, c);
    assert first.fields.Keys == first.clocks.Keys;
    forall t | t in seeds[1..] ensures t.key == key && !t.deleted && WellFormed(t) {
      assert t in Elems(seeds);
    }
    SeedAllNewest(first, key, {s}, seeds[1..]);
    assert {s} + Elems(seeds[1..]) == Elems(seeds);
  }
}
