/** All rows of one kind in a single pass over the queue (crates/doc/src/registry.rs:984-1021). */
module OverlayScan {
  import opened Wrappers
  import opened Hlc
  import opened RegistryCore
  import opened Queue
  import opened RowTable
  import opened PendingQueue
  import opened RegistryDoc
  import opened WriteReplay

  /** Every queued op, oldest first. */
  function PendingOps(pending: seq<PendingBatch>): seq<Op>
    decreases |pending|
  {
    if pending == [] then [] else PendingOps(pending[..|pending| - 1]) + pending[|pending| - 1].ops
  }

  lemma {:induction false} PendingOpsFold(row: Option<Row>, pending: seq<PendingBatch>, key: Key)
    ensures FoldOps(row, PendingOps(pending), key) == Fold(row, OpsOf(pending), key)
    decreases |pending|
  {
    if pending != [] {
      var front, last := pending[..|pending| - 1], pending[|pending| - 1];
      assert pending == front + [last];
      PendingOpsFold(row, front, key);
      FoldNext(row, front, last, key);
      FoldOpsConcat(row, PendingOps(front), last.ops, key);
    }
  }

  function Grouped(groups: map<string, seq<Op>>, id: string): seq<Op> {
    if id in groups then groups[id] else []
  }

  lemma {:induction false} OnKeyLast(ops: seq<Op>, op: Op, key: Key)
    ensures OnKey(ops + [op], key) == OnKey(ops, key) + (if op.key == key then [op] else [])
  {
    OnKeyConcat(ops, [op], key);
    assert [op][1..] == [] && OnKey([], key) == [];
  }

  /** The queued ops of that kind, grouped by row. */
  method GroupOps(pending: seq<PendingBatch>, kind: string) returns (groups: map<string, seq<Op>>)
    ensures forall id :: Grouped(groups, id) == OnKey(PendingOps(pending), Key(kind, id))
  {
    groups := map[];
    ghost var seen: seq<Op> := [];
    for i := 0 to |pending|
      invariant seen == PendingOps(pending[..i])
      invariant forall id :: Grouped(groups, id) == OnKey(seen, Key(kind, id))
    {
      ghost var start := seen;
      var ops := pending[i].ops;
      for j := 0 to |ops|
        invariant seen == start + ops[..j]
        invariant forall id :: Grouped(groups, id) == OnKey(seen, Key(kind, id))
      {
        var op := ops[j];
        forall id ensures OnKey(seen + [op], Key(kind, id)) == OnKey(seen, Key(kind, id)) + (if op.key == Key(kind, id) then [op] else []) {
          OnKeyLast(seen, op, Key(kind, id));
        }
        assert start + ops[..j + 1] == start + ops[..j] + [op];
        if op.key.kind == kind {
          groups := groups[op.key.id := Grouped(groups, op.key.id) + [op]];
        }
        seen := seen + [op];
      }
      assert pending[..i + 1][..i] == pending[..i] && ops[..|ops|] == ops;
    }
    assert pending[..|pending|] == pending;
  }

  /** The free function `overlay`: ops of one row replayed over its base. */
  method Overlay(base: Option<Row>, ops: seq<Op>, ghost key: Key) returns (row: Option<Row>)
    requires forall i :: 0 <= i < |ops| ==> ops[i].key == key
    ensures var end := FoldOps(base, ops, key);
      (row.Some? <==> end.Some? && !end.value.deleted) && (row.Some? ==> row == end)
  {
    row := base;
    for i := 0 to |ops|
      invariant row == FoldOps(base, ops[..i], key)
    {
      assert ops[..i + 1] == ops[..i] + [ops[i]];
      FoldOpsConcat(base, ops[..i], [ops[i]], key);
      FoldSingle(row, ops[i], key);
      var next := ApplyOp(row, ops[i]).row;
      if next.Some? {
        row := next;
      }
    }
    assert ops[..|ops|] == ops;
    if row.Some? && row.value.deleted {
      row := None;
    }
  }

  /** The one-pass read returns exactly what reading each row of the kind on its own would. */
  method OverlayRows(authoritative: Table, pending: seq<PendingBatch>, kind: string) returns (rows: map<string, Row>)
    ensures forall id :: var row := Replayed(authoritative, pending, Key(kind, id));
      (id in rows <==> row.Some? && !row.value.deleted) && (id in rows ==> row == Some(rows[id]))
  {
    var groups := GroupOps(pending, kind);
    var ids := (set k | k in authoritative && k.kind == kind :: k.id) + groups.Keys;
    rows := map[];
    var rest := ids;
    hide FoldOps, Fold, OnKey, PendingOps, OpsOf;
    while rest != {}
      invariant rest <= ids && rows.Keys <= ids - rest
      invariant forall id :: id in ids - rest ==> var row := Replayed(authoritative, pending, Key(kind, id));
        (id in rows <==> row.Some? && !row.value.deleted) && (id in rows ==> row == Some(rows[id]))
    {
      var id :| id in rest;
      var key := Key(kind, id);
      OnKeyOnly(PendingOps(pending), key);
      GroupedFold(authoritative, pending, key);
      var row := Overlay(RowAt(authoritative, key), Grouped(groups, id), key);
      if row.Some? {
        rows := rows[id := row.value];
      }
      rest := rest - {id};
    }
    forall id | id !in ids ensures Replayed(authoritative, pending, Key(kind, id)) == None {
      assert Key(kind, id) !in authoritative;
      GroupedFold(authoritative, pending, Key(kind, id));
      EmptyFold(RowAt(authoritative, Key(kind, id)), Key(kind, id));
    }
  }

  /** The server's row with the queue replayed over it. */
  function Replayed(authoritative: Table, pending: seq<PendingBatch>, key: Key): Option<Row> {
    Fold(RowAt(authoritative, key), OpsOf(pending), key)
  }

  lemma {:induction false} GroupedFold(authoritative: Table, pending: seq<PendingBatch>, key: Key)
    ensures FoldOps(RowAt(authoritative, key), OnKey(PendingOps(pending), key), key) == Replayed(authoritative, pending, key)
  {
    OnKeyFold(RowAt(authoritative, key), PendingOps(pending), key);
    PendingOpsFold(RowAt(authoritative, key), pending, key);
  }

  lemma {:induction false} EmptyFold(row: Option<Row>, key: Key)
    ensures FoldOps(row, [], key) == row
  {
  }

  lemma {:induction false} OnKeyOnly(ops: seq<Op>, key: Key)
    ensures forall i :: 0 <= i < |OnKey(ops, key)| ==> OnKey(ops, key)[i].key == key
    decreases |ops|
  {
    if ops != [] {
      OnKeyOnly(ops[1..], key);
    }
  }
}
