/** Rows by key, and the seed ops that carry a table of them to a server that has none. */
module RowTable {
  import opened Wrappers
  import opened Hlc
  import opened RegistryCore
  import opened MergeLaws
  import opened Queue

  type Table = map<Key, Row>

  function RowAt(rows: Table, key: Key): Option<Row> {
    if key in rows then Some(rows[key]) else None
  }

  function PutAll(rows: Table, incoming: seq<Row>): Table
    decreases |incoming|
  {
    if incoming == [] then rows else PutAll(rows[incoming[0].key := incoming[0]], incoming[1..])
  }

  // ── seeds ─────────────────────────────────────────────────────────────────

  predicate Keyed(rows: Table) {
    forall k :: k in rows ==> rows[k].key == k
  }

  predicate AllWellFormed(rows: Table) {
    forall k :: k in rows ==> WellFormed(rows[k])
  }

  /** What every table of a room or a replica is. */
  predicate Shipshape(rows: Table) {
    Keyed(rows) && AllWellFormed(rows)
  }

  /** The shape a row must have, if there is one. */
  predicate Shaped(row: Option<Row>) {
    row.Some? ==> WellFormed(row.value)
  }

  lemma {:induction false} FoldKeepsShape(row: Option<Row>, ops: seq<Op>, key: Key)
    requires Shaped(row)
    ensures Shaped(FoldOps(row, ops, key))
    decreases |ops|
  {
    if ops != [] {
      ApplyKeepsWellFormed(row, ops[0]);
      FoldKeepsShape(if ops[0].key == key then ApplyOp(row, ops[0]).row else row, ops[1..], key);
    }
  }

  lemma {:induction false} PutAllShaped(rows: Table, incoming: seq<Row>)
    requires AllWellFormed(rows) && forall i :: 0 <= i < |incoming| ==> WellFormed(incoming[i])
    ensures AllWellFormed(PutAll(rows, incoming))
    decreases |incoming|
  {
    if incoming != [] {
      PutAllShaped(rows[incoming[0].key := incoming[0]], incoming[1..]);
    }
  }

  /** One seed op per row, in any order. */
  predicate SeedsOf(seeds: seq<Op>, rows: Table) {
    && (forall i :: 0 <= i < |seeds| ==> seeds[i].key in rows && seeds[i] == RowToSeedOp(rows[seeds[i].key]))
    && (forall i, j :: 0 <= i < j < |seeds| ==> seeds[i].key != seeds[j].key)
    && (forall k :: k in rows ==> Mentions(seeds, k))
  }

  method CollectSeeds(rows: Table) returns (seeds: seq<Op>)
    requires Keyed(rows)
    ensures SeedsOf(seeds, rows)
  {
    seeds := [];
    var rest := rows.Keys;
    while rest != {}
      invariant rest <= rows.Keys
      invariant SeedsOf(seeds, rows - rest)
    {
      var k :| k in rest;
      var more := seeds + [RowToSeedOp(rows[k])];
      var done, done' := rows - rest, rows - (rest - {k});
      forall key | key in done' ensures Mentions(more, key) {
        if key == k {
          assert more[|seeds|].key == k;
        } else {
          assert key in done;
          var i :| 0 <= i < |seeds| && seeds[i].key == key;
          assert more[i].key == key;
        }
      }
      seeds := more;
      rest := rest - {k};
    }
    assert rows - {} == rows;
  }

  lemma {:induction false} FoldOpsDistinct(row: Option<Row>, ops: seq<Op>, n: nat)
    requires n < |ops| && forall i, j :: 0 <= i < j < |ops| ==> ops[i].key != ops[j].key
    ensures FoldOps(row, ops, ops[n].key) == ApplyOp(row, ops[n]).row
    decreases |ops|
  {
    if n == 0 {
      FoldOpsUnmentioned(ApplyOp(row, ops[0]).row, ops[1..], ops[0].key);
    } else {
      assert ops[0].key != ops[n].key;
      FoldOpsDistinct(row, ops[1..], n - 1);
    }
  }

  /** Draining a replica's seeds touches each of its rows once, with that row's seed. */
  lemma {:induction false} SeedsFold(seeds: seq<Op>, rows: Table, row: Option<Row>, key: Key)
    requires SeedsOf(seeds, rows)
    ensures FoldOps(row, seeds, key) == if key in rows then ApplyOp(row, RowToSeedOp(rows[key])).row else row
  {
    if key in rows {
      assert Mentions(seeds, key);
      var n :| 0 <= n < |seeds| && seeds[n].key == key;
      FoldOpsDistinct(row, seeds, n);
    } else {
      FoldOpsUnmentioned(row, seeds, key);
    }
  }

  /** A row after the seed a replica holding `rows` would send for it. */
  function FoldSeed(row: Option<Row>, rows: Table, key: Key): Option<Row> {
    if key in rows then ApplyOp(row, RowToSeedOp(rows[key])).row else row
  }

  /** A replica's own seeds change none of its rows. */
  lemma {:induction false} SeedsAtHome(rows: Table, key: Key)
    requires AllWellFormed(rows) && Keyed(rows)
    ensures FoldSeed(RowAt(rows, key), rows, key) == RowAt(rows, key)
  {
    if key in rows {
      SeedIsNoOpAtHome(rows[key]);
    }
  }

  /** Draining a replica's seeds into a wiped room restores every row:
  its fields, the clock of each, and every tombstone's clock. */
  lemma {:induction false} DrainedSeedsRestore(seeds: seq<Op>, rows: Table, key: Key)
    requires SeedsOf(seeds, rows) && AllWellFormed(rows)
    ensures FoldOps(None, seeds, key) == if key in rows then Some(Carried(rows[key])) else None
  {
    SeedsFold(seeds, rows, None, key);
    if key in rows {
      SeedRestores(rows[key]);
    }
  }
}
