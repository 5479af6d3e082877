/** Re-seeding a row that some replicas hold deleted and others live
(crates/doc/src/registry.rs:181-299, 659-677). */
module Reseed {
  import opened Wrappers
  import opened Hlc
  import opened RegistryCore
  import opened MergeLaws
  import opened OpRewriting

  /** A clock of the row, fields cleared since and its own old tombstone included, is past `t`; a row
  without any counts as written at the epoch. */
  ghost predicate Revives(r: Row, t: Clock) {
    && !r.deleted
    && if AllClocks(r) == {} then SEED_CLOCK > t else exists c :: c in AllClocks(r) && c > t
  }

  predicate WrittenAt(r: Row, k: string, t: Clock) {
    k in r.fields && k in r.clocks && r.clocks[k] >= t
  }

  /** A field the row still has was written no earlier than `t`. */
  ghost predicate Outlives(r: Row, t: Clock) {
    !r.deleted && exists k :: WrittenAt(r, k, t)
  }

  /** The row a live row's seed revives is its own, over the tombstone's clock. */
  function Over(r: Row, t: Clock): Row {
    Carried(r).(delHlc := Some(t))
  }

  /** The seed of a live row brings it back over a tombstone exactly if the row has a clock past it;
  and then as it was. */
  lemma {:induction false} SeedOverTombstone(r: Row, t: Clock)
    requires WellFormed(r) && !r.deleted
    ensures ApplyOp(Some(Tombstone(r.key, t)), RowToSeedOp(r))
      == if Revives(r, t) then Applied(Some(Over(r, t)), true) else Applied(Some(Tombstone(r.key, t)), false)
  {
    var op := RowToSeedOp(r);
    assert AllClocks(r) == {} <==> MaxClock(r) == None by {
      assert r.clocks != map[] ==> exists k :: k in r.clocks && r.clocks[k] in AllClocks(r);
    }
    assert Newer(op.hlc, Some(t)) <==> Revives(r, t);
    if Revives(r, t) {
      var base := Row(r.key, 0, false, Some(t), map[], map[]);
      WriteFieldsAt(base, op);
      forall k
        ensures FieldAfter(base, op, k) == Lookup(r.fields, k) && ClockAfter(base, op, k) == Lookup(Over(r, t).clocks, k)
      {
      }
      SameRow(WriteFields(base, op), Over(r, t));
    }
  }

  // ── several replicas ──────────────────────────────────────────────────────

  /** The replicas' versions of one row, some deleted, the newest deletion at `t`. */
  ghost predicate Versions(key: Key, rows: set<Row>, t: Clock) {
    && (forall r :: r in rows ==> r.key == key && WellFormed(r))
    && (forall r :: r in rows && r.deleted ==> r.delHlc.value <= t)
    && exists r :: r in rows && r.deleted && r.delHlc.value == t
  }

  /** Each replica seeds, in this order, perhaps more than once. */
  ghost predicate Order(seeds: seq<Row>, rows: set<Row>) {
    Elems(seeds) == rows
  }

  predicate Live(row: Option<Row>) {
    row.Some? && !row.value.deleted
  }

  ghost predicate AlwaysDead(rows: set<Row>) {
    forall seeds :: Order(seeds, rows) ==> !Live(SeedAll(None, seeds))
  }

  ghost predicate AlwaysLive(rows: set<Row>) {
    forall seeds :: Order(seeds, rows) ==> Live(SeedAll(None, seeds))
  }

  /** What seeding can leave: no tombstone past `t`, and every row of this key. */
  ghost predicate Within(row: Option<Row>, key: Key, t: Clock) {
    row.Some? ==>
      && row.value.key == key && row.value.seqNo == 0 && WellFormed(row.value)
      && (row.value.delHlc.Some? ==> row.value.delHlc.value <= t)
  }

  ghost predicate Seedable(r: Row, key: Key, t: Clock) {
    r.key == key && WellFormed(r) && (r.deleted ==> r.delHlc.value <= t)
  }

  function Seeded(row: Option<Row>, r: Row): Option<Row> {
    ApplyOp(row, RowToSeedOp(r)).row
  }

  lemma {:induction false} SeedStays(row: Option<Row>, r: Row, key: Key, t: Clock)
    requires Within(row, key, t) && Seedable(r, key, t)
    ensures Within(Seeded(row, r), key, t) && Seeded(row, r).Some?
  {
    ApplyKeepsWellFormed(row, RowToSeedOp(r));
    KeepsKeys(WriteBase(row, key), RowToSeedOp(r));
    hide WriteFields, Winners, WellFormed;
  }

  lemma {:induction false} SeedAllStays(row: Option<Row>, seeds: seq<Row>, key: Key, t: Clock)
    requires Within(row, key, t) && forall i :: 0 <= i < |seeds| ==> Seedable(seeds[i], key, t)
    ensures Within(SeedAll(row, seeds), key, t) && (seeds != [] || row.Some? ==> SeedAll(row, seeds).Some?)
    decreases |seeds|
  {
    hide Within, Seedable;
    if seeds != [] {
      SeedStays(row, seeds[0], key, t);
      SeedAllStays(Seeded(row, seeds[0]), seeds[1..], key, t);
    }
  }

  lemma {:induction false} SeedAllConcat(row: Option<Row>, x: seq<Row>, y: seq<Row>)
    ensures SeedAll(row, x + y) == SeedAll(SeedAll(row, x), y)
    decreases |x|
  {
    if x == [] {
      assert x + y == y;
    } else {
      assert (x + y)[0] == x[0] && (x + y)[1..] == x[1..] + y;
      SeedAllConcat(Seeded(row, x[0]), x[1..], y);
    }
  }

  // ── rows that stay live ───────────────────────────────────────────────────

  /** A live row with a field of `s`, as `s` has it or newer. */
  ghost predicate HasOf(row: Option<Row>, s: Row) {
    Live(row) && forall k, v, c :: Holds(s, k, v, c) ==> k in row.value.clocks && c <= row.value.clocks[k]
  }

  ghost predicate Reaches(row: Option<Row>, t: Clock) {
    Live(row) && exists k :: k in row.value.clocks && row.value.clocks[k] >= t
  }

  lemma {:induction false} WritesOfSeed(base: Row, r: Row)
    requires !r.deleted && WellFormed(r)
    ensures var next := WriteFields(base, RowToSeedOp(r));
      && (forall k :: k in base.clocks ==> k in next.clocks && base.clocks[k] <= next.clocks[k])
      && (forall k, v, c :: Holds(r, k, v, c) ==> k in next.clocks && c <= next.clocks[k])
      && (forall k, v, c :: Holds(next, k, v, c) ==> Holds(base, k, v, c) || Holds(r, k, v, c))
      && (forall k :: k in next.clocks ==> (k in base.clocks && next.clocks[k] == base.clocks[k]) || (k in r.fields && next.clocks[k] == r.clocks[k]))
  {
    var op := RowToSeedOp(r);
    var next := WriteFields(base, op);
    WriteFieldsAt(base, op);
    assert forall k :: Lookup(next.clocks, k) == ClockAfter(base, op, k);
    assert forall k :: Lookup(next.fields, k) == FieldAfter(base, op, k);
    hide WriteFields, Winners;
  }

  /** Such a row outlasts every seed. */
  lemma {:induction false} ReachesOn(row: Option<Row>, r: Row, key: Key, t: Clock)
    requires Reaches(row, t) && Seedable(r, key, t)
    ensures Reaches(Seeded(row, r), t) && forall s :: HasOf(row, s) ==> HasOf(Seeded(row, r), s)
  {
    if r.deleted {
      DeleteBeatsLive(row.value, r.delHlc.value);
    } else {
      WritesOfSeed(row.value, r);
      hide WriteFields, Winners;
    }
  }

  lemma {:induction false} ReachesAll(row: Option<Row>, seeds: seq<Row>, key: Key, t: Clock, s: Row)
    requires Reaches(row, t) && forall i :: 0 <= i < |seeds| ==> Seedable(seeds[i], key, t)
    ensures Reaches(SeedAll(row, seeds), t) && (HasOf(row, s) ==> HasOf(SeedAll(row, seeds), s))
    decreases |seeds|
  {
    hide Seedable;
    if seeds != [] {
      ReachesOn(row, seeds[0], key, t);
      hide HasOf, Reaches;
      ReachesAll(Seeded(row, seeds[0]), seeds[1..], key, t, s);
    }
  }

  lemma {:induction false} RevivesEarlier(r: Row, d: Clock, t: Clock)
    requires Revives(r, t) && d <= t
    ensures Revives(r, d)
  {
  }

  /** A row that both revives and outlives the newest tombstone is there once it seeded. */
  lemma {:induction false} StrongSeed(row: Option<Row>, r: Row, key: Key, t: Clock)
    requires Within(row, key, t) && Seedable(r, key, t) && !r.deleted
    requires Outlives(r, t) && (Live(row) || row == None || Revives(r, t))
    ensures Reaches(Seeded(row, r), t) && HasOf(Seeded(row, r), r)
  {
    var k :| WrittenAt(r, k, t);
    assert Holds(r, k, r.fields[k], r.clocks[k]);
    if Live(row) {
      WritesOfSeed(row.value, r);
    } else if row == None {
      SeedRestores(r);
    } else {
      var d := row.value.delHlc.value;
      assert row.value == Tombstone(key, d);
      SeedOverTombstone(r, d);
      RevivesEarlier(r, d, t);
      assert Seeded(row, r) == Some(Over(r, d));
      assert k in Over(r, d).clocks && Over(r, d).clocks[k] == r.clocks[k];
    }
  }

  // ── rows that stay dead ───────────────────────────────────────────────────

  /** Nothing here is as new as `t`. */
  ghost predicate Older(row: Option<Row>, t: Clock) {
    row.Some? ==>
      && (row.value.delHlc.Some? ==> row.value.delHlc.value < t)
      && forall k :: k in row.value.clocks ==> row.value.clocks[k] < t
  }

  lemma {:induction false} OlderOn(row: Option<Row>, r: Row, key: Key, t: Clock)
    requires Within(row, key, t) && Older(row, t) && Seedable(r, key, t) && !Outlives(r, t) && !IsNewest(r, t)
    ensures Older(Seeded(row, r), t)
  {
    if !r.deleted {
      WritesOfSeed(WriteBase(row, key), r);
      KeepsKeys(WriteBase(row, key), RowToSeedOp(r));
      forall k | k in r.fields ensures r.clocks[k] < t {
        assert !WrittenAt(r, k, t);
      }
    }
    hide WriteFields, Winners;
  }

  /** The newest tombstone takes a row with nothing as new. */
  lemma {:induction false} TombstoneTakes(row: Option<Row>, d: Row, key: Key, t: Clock)
    requires Within(row, key, t) && Older(row, t) && Seedable(d, key, t) && d.deleted && d.delHlc.value == t
    ensures Seeded(row, d) == Some(Tombstone(key, t))
  {
    if Live(row) {
      DeleteBeatsLive(row.value, t);
    }
  }

  /** And keeps it from every seed with no clock past it. */
  lemma {:induction false} DeadOn(seeds: seq<Row>, key: Key, t: Clock)
    requires forall i :: 0 <= i < |seeds| ==> Seedable(seeds[i], key, t) && !Revives(seeds[i], t)
    ensures SeedAll(Some(Tombstone(key, t)), seeds) == Some(Tombstone(key, t))
    decreases |seeds|
  {
    if seeds != [] {
      if !seeds[0].deleted {
        SeedOverTombstone(seeds[0], t);
      }
      hide Revives, Seedable;
      DeadOn(seeds[1..], key, t);
    }
  }

  /** Rows with nothing as new as `t` leave nothing as new. */
  lemma {:induction false} OlderAll(row: Option<Row>, seeds: seq<Row>, key: Key, t: Clock)
    requires Within(row, key, t) && Older(row, t)
    requires forall i :: 0 <= i < |seeds| ==> Seedable(seeds[i], key, t) && !Outlives(seeds[i], t) && !IsNewest(seeds[i], t)
    ensures Older(SeedAll(row, seeds), t) && Within(SeedAll(row, seeds), key, t)
    decreases |seeds|
  {
    if seeds != [] {
      OlderOn(row, seeds[0], key, t);
      SeedStays(row, seeds[0], key, t);
      hide Older, Within, Seedable, Outlives, IsNewest;
      OlderAll(Seeded(row, seeds[0]), seeds[1..], key, t);
    }
  }

  predicate IsNewest(r: Row, t: Clock) {
    r.deleted && r.delHlc == Some(t)
  }

  /** With its tombstone taken next, and nothing after it that revives, the row ends as that. */
  lemma {:induction false} EndsDead(row: Option<Row>, seeds: seq<Row>, key: Key, t: Clock, n: nat)
    requires Within(row, key, t) && Older(row, t) && n < |seeds| && IsNewest(seeds[n], t)
    requires forall i :: 0 <= i < |seeds| ==> Seedable(seeds[i], key, t)
    requires forall i :: 0 <= i < n ==> !Outlives(seeds[i], t) && !IsNewest(seeds[i], t)
    requires forall i :: n < i < |seeds| ==> !Revives(seeds[i], t)
    ensures SeedAll(row, seeds) == Some(Tombstone(key, t))
  {
    hide Older, Within, Outlives, Revives;
    var x, y := seeds[..n], seeds[n + 1..];
    assert seeds == x + ([seeds[n]] + y);
    SeedAllConcat(row, x, [seeds[n]] + y);
    OlderAll(row, x, key, t);
    TombstoneTakes(SeedAll(row, x), seeds[n], key, t);
    assert ([seeds[n]] + y)[1..] == y;
    DeadOn(y, key, t);
  }

  // ── whether the order matters ─────────────────────────────────────────────

  lemma {:induction false} Listing(rows: set<Row>) returns (list: seq<Row>)
    ensures Elems(list) == rows
    decreases |rows|
  {
    if rows == {} {
      list := [];
    } else {
      var r :| r in rows;
      var rest := Listing(rows - {r});
      list := [r] + rest;
      ElemsConcat([r], rest);
    }
  }

  lemma {:induction false} ElemsConcat(x: seq<Row>, y: seq<Row>)
    ensures Elems(x + y) == Elems(x) + Elems(y) && (|x| == 1 ==> Elems(x) == {x[0]})
  {
  }

  lemma {:induction false} AllSeedable(seeds: seq<Row>, key: Key, rows: set<Row>, t: Clock)
    requires Versions(key, rows, t) && Elems(seeds) <= rows
    ensures forall i :: 0 <= i < |seeds| ==> Seedable(seeds[i], key, t)
  {
    forall i | 0 <= i < |seeds| ensures Seedable(seeds[i], key, t) {
      assert seeds[i] in Elems(seeds);
    }
  }

  /** A wiped row ends deleted in whatever order its replicas seed it exactly if no live one has a
  field written since the newest deletion, nor any clock past it. Then it ends as that deletion. */
  lemma {:induction false} StaysDeletedIff(key: Key, rows: set<Row>, t: Clock)
    requires Versions(key, rows, t)
    ensures AlwaysDead(rows) <==> forall r :: r in rows ==> !Outlives(r, t) && !Revives(r, t)
    ensures AlwaysDead(rows) ==> forall seeds :: Order(seeds, rows) ==> SeedAll(None, seeds) == Some(Tombstone(key, t))
  {
    if forall r :: r in rows ==> !Outlives(r, t) && !Revives(r, t) {
      forall seeds | Order(seeds, rows) ensures SeedAll(None, seeds) == Some(Tombstone(key, t)) {
        AllEndDead(seeds, key, rows, t);
      }
    } else {
      var r :| r in rows && (Outlives(r, t) || Revives(r, t));
      var seeds := SomeEndsLive(key, rows, t, r);
    }
  }

  lemma {:induction false} AllEndDead(seeds: seq<Row>, key: Key, rows: set<Row>, t: Clock)
    requires Versions(key, rows, t) && Order(seeds, rows)
    requires forall r :: r in rows ==> !Outlives(r, t) && !Revives(r, t)
    ensures SeedAll(None, seeds) == Some(Tombstone(key, t))
  {
    AllSeedable(seeds, key, rows, t);
    assert forall i :: 0 <= i < |seeds| ==> seeds[i] in Elems(seeds);
    var d :| d in rows && d.deleted && d.delHlc.value == t;
    assert d in Elems(seeds);
    var n := FirstNewest(seeds, t);
    hide Outlives, Revives, Seedable, Elems, Versions;
    EndsDead(None, seeds, key, t, n);
  }

  lemma {:induction false} FirstNewest(seeds: seq<Row>, t: Clock) returns (n: nat)
    requires exists r :: r in seeds && IsNewest(r, t)
    ensures n < |seeds| && IsNewest(seeds[n], t) && forall i :: 0 <= i < n ==> !IsNewest(seeds[i], t)
    decreases |seeds|
  {
    if IsNewest(seeds[0], t) {
      n := 0;
    } else {
      n := FirstNewest(seeds[1..], t);
      n := n + 1;
      forall i | 0 <= i < n ensures !IsNewest(seeds[i], t) {
        assert i > 0 ==> seeds[i] == seeds[1..][i - 1];
      }
    }
  }

  /** First, or last, such a replica brings the row back. */
  lemma {:induction false} SomeEndsLive(key: Key, rows: set<Row>, t: Clock, r: Row) returns (seeds: seq<Row>)
    requires Versions(key, rows, t) && r in rows && (Outlives(r, t) || Revives(r, t))
    ensures Order(seeds, rows) && Live(SeedAll(None, seeds))
  {
    var list := Listing(rows);
    AllSeedable(list, key, rows, t);
    ElemsConcat([r], list);
    ElemsConcat(list, [r]);
    assert {r} + rows == rows && rows + {r} == rows;
    if Outlives(r, t) {
      seeds := [r] + list;
      StrongSeed(None, r, key, t);
      assert seeds[1..] == list;
      ReachesAll(Seeded(None, r), list, key, t, r);
    } else {
      seeds := list + [r];
      SeedAllConcat(None, list, [r]);
      SeedAllStays(None, list, key, t);
      LastRevives(SeedAll(None, list), r, key, t);
    }
  }

  lemma {:induction false} LastRevives(row: Option<Row>, r: Row, key: Key, t: Clock)
    requires Within(row, key, t) && Seedable(r, key, t) && Revives(r, t)
    ensures Live(SeedAll(row, [r]))
  {
    assert [r][1..] == [];
    if row.Some? && row.value.deleted {
      var d := row.value.delHlc.value;
      assert row.value == Tombstone(key, d);
      SeedOverTombstone(r, d);
    } else {
      KeepsKeys(WriteBase(row, key), RowToSeedOp(r));
    }
    hide WriteFields;
  }

  /** It ends live in whatever order exactly if one live replica has both: a field written no earlier
  than the newest deletion, and a clock past it. Then it has each field of every such replica, that
  one's or a newer write. */
  lemma {:induction false} StaysLiveIff(key: Key, rows: set<Row>, t: Clock)
    requires Versions(key, rows, t)
    ensures AlwaysLive(rows) <==> exists r :: r in rows && Outlives(r, t) && Revives(r, t)
    ensures forall seeds, r :: Order(seeds, rows) && r in rows && Outlives(r, t) && Revives(r, t) ==> HasOf(SeedAll(None, seeds), r)
  {
    forall seeds, r | Order(seeds, rows) && r in rows && Outlives(r, t) && Revives(r, t)
      ensures HasOf(SeedAll(None, seeds), r)
    {
      StrongEndsLive(seeds, key, rows, t, r);
    }
    if !exists r :: r in rows && Outlives(r, t) && Revives(r, t) {
      var seeds := SomeEndsDead(key, rows, t);
    }
  }

  lemma {:induction false} StrongEndsLive(seeds: seq<Row>, key: Key, rows: set<Row>, t: Clock, r: Row)
    requires Versions(key, rows, t) && Order(seeds, rows) && r in rows && Outlives(r, t) && Revives(r, t)
    ensures HasOf(SeedAll(None, seeds), r)
  {
    assert r in Elems(seeds);
    var n :| 0 <= n < |seeds| && seeds[n] == r;
    AllSeedable(seeds, key, rows, t);
    hide Outlives, Revives, Seedable, Elems, Versions;
    var x, y := seeds[..n], seeds[n + 1..];
    assert seeds == x + ([r] + y) && ([r] + y)[1..] == y;
    SeedAllConcat(None, x, [r] + y);
    SeedAllStays(None, x, key, t);
    StrongSeed(SeedAll(None, x), r, key, t);
    ReachesAll(Seeded(SeedAll(None, x), r), y, key, t, r);
  }

  /** First the rows with nothing as new as the deletion, then it, then the others, which do not
  revive. */
  lemma {:induction false} SomeEndsDead(key: Key, rows: set<Row>, t: Clock) returns (seeds: seq<Row>)
    requires Versions(key, rows, t) && forall r :: r in rows ==> !(Outlives(r, t) && Revives(r, t))
    ensures Order(seeds, rows) && !Live(SeedAll(None, seeds))
  {
    var d :| d in rows && d.deleted && d.delHlc.value == t;
    var weak := set r | r in rows && !r.deleted && !Outlives(r, t);
    var first := Listing(weak);
    var last := Listing(rows - weak);
    seeds := first + ([d] + last);
    ElemsConcat(first, [d] + last);
    ElemsConcat([d], last);
    assert weak + ({d} + (rows - weak)) == rows;
    AllSeedable(seeds, key, rows, t);
    var n := |first|;
    forall i | 0 <= i < n ensures !Outlives(seeds[i], t) && !IsNewest(seeds[i], t) {
      assert first[i] in Elems(first);
    }
    forall i | n < i < |seeds| ensures !Revives(seeds[i], t) {
      assert seeds[i] == last[i - n - 1] && last[i - n - 1] in Elems(last);
    }
    hide Outlives, Revives, Seedable, Elems, Versions;
    EndsDead(None, seeds, key, t, n);
  }

  /** Whatever the order, a live outcome has nothing that no replica wrote. */
  lemma {:induction false} NothingInvented(row: Option<Row>, seeds: seq<Row>, from: set<Row>)
    requires forall r :: r in seeds ==> r in from && WellFormed(r)
    requires Live(row) ==> WrittenBy(row.value, from)
    ensures Live(SeedAll(row, seeds)) ==> WrittenBy(SeedAll(row, seeds).value, from)
    decreases |seeds|
  {
    if seeds != [] {
      var r := seeds[0];
      if !r.deleted {
        WritesOfSeed(WriteBase(row, r.key), r);
      }
      hide WriteFields, Winners;
      NothingInvented(Seeded(row, r), seeds[1..], from);
    }
  }

  /** Every field of the row is some live replica's, at that replica's clock. */
  ghost predicate WrittenBy(row: Row, from: set<Row>) {
    forall k, v, c :: Holds(row, k, v, c) ==> exists r :: r in from && !r.deleted && Holds(r, k, v, c)
  }
}
