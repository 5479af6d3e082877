/** A queue of op batches as one row sees it: replay, rewriting steps, notifications.

`coalesce_unsent` (crates/doc/src/registry.rs:829-952) rewrites the unsent queue by steps that
move one op behind a later one and fold it in; this module says what one such step may do and
proves what any number of them keep. */
module Queue {
  import opened Wrappers
  import opened Hlc
  import opened RegistryCore
  import opened OpRewriting

  const SESSIONS := "sessions"
  const CHATS := "chats"

  type Batches = seq<seq<Op>>

  // ── replay ────────────────────────────────────────────────────────────────

  /** The row after the ops on `key`, in order. */
  function FoldOps(row: Option<Row>, ops: seq<Op>, key: Key): Option<Row>
    decreases |ops|
  {
    if ops == [] then row
    else FoldOps(if ops[0].key == key then ApplyOp(row, ops[0]).row else row, ops[1..], key)
  }

  function Fold(row: Option<Row>, q: Batches, key: Key): Option<Row>
    decreases |q|
  {
    if q == [] then row else Fold(FoldOps(row, q[0], key), q[1..], key)
  }

  predicate Mentions(ops: seq<Op>, key: Key) {
    exists i :: 0 <= i < |ops| && ops[i].key == key
  }

  predicate Untouched(q: Batches, key: Key) {
    forall i :: 0 <= i < |q| ==> !Mentions(q[i], key)
  }

  lemma {:induction false} FoldOpsConcat(row: Option<Row>, x: seq<Op>, y: seq<Op>, key: Key)
    ensures FoldOps(row, x + y, key) == FoldOps(FoldOps(row, x, key), y, key)
    decreases |x|
  {
    if x == [] {
      assert x + y == y;
    } else {
      assert (x + y)[1..] == x[1..] + y;
      FoldOpsConcat(if x[0].key == key then ApplyOp(row, x[0]).row else row, x[1..], y, key);
    }
  }

  lemma {:induction false} FoldConcat(row: Option<Row>, x: Batches, y: Batches, key: Key)
    ensures Fold(row, x + y, key) == Fold(Fold(row, x, key), y, key)
    decreases |x|
  {
    if x == [] {
      assert x + y == y;
    } else {
      assert (x + y)[1..] == x[1..] + y;
      FoldConcat(FoldOps(row, x[0], key), x[1..], y, key);
    }
  }

  lemma {:induction false} FoldOpsUnmentioned(row: Option<Row>, ops: seq<Op>, key: Key)
    requires !Mentions(ops, key)
    ensures FoldOps(row, ops, key) == row
    decreases |ops|
  {
    if ops != [] {
      assert ops[0].key != key;
      assert forall i :: 0 <= i < |ops[1..]| ==> ops[1..][i] == ops[i + 1];
      FoldOpsUnmentioned(row, ops[1..], key);
    }
  }

  lemma {:induction false} FoldUntouched(row: Option<Row>, q: Batches, key: Key)
    requires Untouched(q, key)
    ensures Fold(row, q, key) == row
    decreases |q|
  {
    if q != [] {
      FoldOpsUnmentioned(row, q[0], key);
      FoldUntouched(row, q[1..], key);
    }
  }

  lemma {:induction false} FoldSingle(row: Option<Row>, op: Op, key: Key)
    ensures FoldOps(row, [op], key) == if op.key == key then ApplyOp(row, op).row else row
  {
    assert [op][1..] == [];
  }

  // ── one rewriting step ────────────────────────────────────────────────────

  /** What a notification depends on in a session op: its status and its completed turn. */
  function Signal(op: Op): (Option<Value>, Option<Value>) {
    (Lookup(Writes(op), "status"), Lookup(Writes(op), "lastCompletedTurn"))
  }

  /** A chat op a later note could read differently: not an update, or one of title, archived flag or
  parent. */
  predicate Gates(op: Op) {
    op.op != Update || "title" in Writes(op) || "archived" in Writes(op) || "parentChatId" in Writes(op)
  }

  function LastIn(ops: seq<Op>, key: Key): Option<Op>
    decreases |ops|
  {
    if ops == [] then None
    else if ops[|ops| - 1].key == key then Some(ops[|ops| - 1])
    else LastIn(ops[..|ops| - 1], key)
  }

  /** The latest op on `key` in the queue. */
  function LastOp(q: Batches, key: Key): Option<Op>
    decreases |q|
  {
    if q == [] then None
    else
      var last := LastIn(q[|q| - 1], key);
      if last.Some? then last else LastOp(q[..|q| - 1], key)
  }

  /** Two single-op batches on one row, nothing on that row between them, and their fold. */
  predicate Foldable(q: Batches, i: nat, j: nat, fits: Op -> bool) {
    && i < j < |q| && |q[i]| == 1 && |q[j]| == 1
    && CoalesceOps(q[i][0], q[j][0], fits).Some?
    && Untouched(q[i + 1..j], q[i][0].key)
  }

  /** No op in these batches changes what a notification about chat `id` is labelled with. */
  predicate NoGate(q: Batches, id: string) {
    forall k, o :: 0 <= k < |q| && 0 <= o < |q[k]| && q[k][o].key == Key(CHATS, id) ==> !Gates(q[k][o])
  }

  /** Neither op heads a run of like session statuses, and no chat op is passed that would relabel. */
  predicate SessionMayMove(q: Batches, i: nat, j: nat)
    requires i < j < |q| && |q[i]| == 1 && |q[j]| == 1
  {
    var head := LastOp(q[..i], q[i][0].key);
    && head.Some? && head.value.op != Delete
    && Signal(head.value) == Signal(q[i][0]) && Signal(q[i][0]) == Signal(q[j][0])
    && NoGate(q[i + 1..j], q[i][0].key.id)
  }

  predicate MayMove(q: Batches, i: nat, j: nat)
    requires i < j < |q| && |q[i]| == 1 && |q[j]| == 1
  {
    var a := q[i][0];
    && (a.key.kind == SESSIONS ==> SessionMayMove(q, i, j))
    && (a.key.kind == CHATS && Gates(a) ==> Untouched(q[i + 1..j], Key(SESSIONS, a.key.id)))
  }

  /** The queue after folding batch `i` into batch `j`; batch `i` is left empty. */
  function Folded(q: Batches, i: nat, j: nat, fits: Op -> bool): Batches
    requires Foldable(q, i, j, fits)
  {
    q[i := []][j := [CoalesceOps(q[i][0], q[j][0], fits).value]]
  }

  ghost predicate Step(q: Batches, q': Batches, fits: Op -> bool) {
    exists i: nat, j: nat :: Foldable(q, i, j, fits) && MayMove(q, i, j) && q' == Folded(q, i, j, fits)
  }

  /** A rewriting: a trace of queues, each one step from the one before. */
  ghost predicate Rewriting(trace: seq<Batches>, fits: Op -> bool)
    decreases |trace|
  {
    var n := |trace|;
    n == 1 || (n > 1 && Step(trace[n - 2], trace[n - 1], fits) && Rewriting(trace[..n - 1], fits))
  }

  /** Step into batch `j`. */
  ghost predicate StepAt(q: Batches, q': Batches, j: nat, fits: Op -> bool) {
    exists i: nat :: Foldable(q, i, j, fits) && MayMove(q, i, j) && q' == Folded(q, i, j, fits)
  }

  /** Every step of a rewriting folds into a batch marked as having gained content. */
  ghost predicate FoldedInto(trace: seq<Batches>, gained: seq<bool>, fits: Op -> bool)
    decreases |trace|
  {
    var n := |trace|;
    n == 1 || (n > 1 && FoldedInto(trace[..n - 1], gained, fits)
               && exists j: nat :: j < |gained| && gained[j] && StepAt(trace[n - 2], trace[n - 1], j, fits))
  }

  lemma {:induction false} FoldedIntoMore(trace: seq<Batches>, gained: seq<bool>, bi: nat, q: Batches, fits: Op -> bool)
    requires FoldedInto(trace, gained, fits) && bi < |gained| && StepAt(trace[|trace| - 1], q, bi, fits)
    ensures FoldedInto(trace + [q], gained[bi := true], fits)
  {
    var more := gained[bi := true];
    GainedMore(trace, gained, bi, fits);
    assert (trace + [q])[..|trace|] == trace;
    assert more[bi] && StepAt((trace + [q])[|trace| - 1], q, bi, fits);
  }

  lemma {:induction false} GainedMore(trace: seq<Batches>, gained: seq<bool>, bi: nat, fits: Op -> bool)
    requires FoldedInto(trace, gained, fits) && bi < |gained|
    ensures FoldedInto(trace, gained[bi := true], fits)
    decreases |trace|
  {
    var n := |trace|;
    if n > 1 {
      GainedMore(trace[..n - 1], gained, bi, fits);
      var j: nat :| j < |gained| && gained[j] && StepAt(trace[n - 2], trace[n - 1], j, fits);
      assert gained[bi := true][j];
    }
  }

  /** A step cut into the five pieces the proofs follow. */
  lemma {:induction false} Cut(q: Batches, i: nat, j: nat, fits: Op -> bool)
    requires Foldable(q, i, j, fits)
    ensures q == q[..i] + [q[i]] + q[i + 1..j] + [q[j]] + q[j + 1..]
    ensures Folded(q, i, j, fits) == q[..i] + [[]] + q[i + 1..j] + [[CoalesceOps(q[i][0], q[j][0], fits).value]] + q[j + 1..]
  {
  }

  lemma {:induction false} FoldCut(row: Option<Row>, pre: Batches, x: seq<Op>, mid: Batches, y: seq<Op>, post: Batches, key: Key)
    ensures Fold(row, pre + [x] + mid + [y] + post, key)
         == Fold(FoldOps(Fold(FoldOps(Fold(row, pre, key), x, key), mid, key), y, key), post, key)
  {
    FoldConcat(row, pre + [x] + mid + [y], post, key);
    FoldConcat(row, pre + [x] + mid, [y], key);
    FoldConcat(row, pre + [x], mid, key);
    FoldConcat(row, pre, [x], key);
    FoldOne(Fold(row, pre, key), x, key);
    FoldOne(Fold(row, pre + [x] + mid, key), y, key);
  }

  lemma {:induction false} FoldOne(row: Option<Row>, x: seq<Op>, key: Key)
    ensures Fold(row, [x], key) == FoldOps(row, x, key)
  {
    assert [x][1..] == [];
  }

  /** A rewriting step is invisible to every row, over every starting state. */
  lemma {:induction false} StepKeepsFold(q: Batches, i: nat, j: nat, fits: Op -> bool, row: Option<Row>, key: Key)
    requires Foldable(q, i, j, fits)
    ensures Fold(row, Folded(q, i, j, fits), key) == Fold(row, q, key)
  {
    var a, b := q[i][0], q[j][0];
    var m := CoalesceOps(a, b, fits).value;
    var mid := q[i + 1..j];
    Cut(q, i, j, fits);
    FoldCut(row, q[..i], [a], mid, [b], q[j + 1..], key);
    FoldCut(row, q[..i], [], mid, [m], q[j + 1..], key);
    assert q[i] == [a] && q[j] == [b];
    var before := Fold(row, q[..i], key);
    FoldSingle(before, a, key);
    FoldSingle(Fold(FoldOps(before, [a], key), mid, key), b, key);
    FoldSingle(Fold(before, mid, key), m, key);
    if a.key == key {
      FoldUntouched(before, mid, key);
      FoldUntouched(ApplyOp(before, a).row, mid, key);
      CoalesceExact(before, a, b, fits);
    }
  }

  /** Any rewriting is invisible to every row. */
  lemma {:induction false} RewritingKeepsFold(trace: seq<Batches>, fits: Op -> bool, row: Option<Row>, key: Key)
    requires Rewriting(trace, fits)
    ensures Fold(row, trace[|trace| - 1], key) == Fold(row, trace[0], key)
    decreases |trace|
  {
    if |trace| > 1 {
      hide Step, Fold;
      AnyStepKeepsFold(trace[|trace| - 2], trace[|trace| - 1], fits, row, key);
      RewritingKeepsFold(trace[..|trace| - 1], fits, row, key);
    }
  }

  lemma {:induction false} AnyStepKeepsFold(q: Batches, q': Batches, fits: Op -> bool, row: Option<Row>, key: Key)
    requires Step(q, q', fits)
    ensures Fold(row, q', key) == Fold(row, q, key)
  {
    var i: nat, j: nat :| Foldable(q, i, j, fits) && MayMove(q, i, j) && q' == Folded(q, i, j, fits);
    hide Foldable, MayMove, Fold;
    StepKeepsFold(q, i, j, fits, row, key);
  }

  /** Batches emptied by the rewriting are dropped in the end. */
  function DropEmpty(q: Batches): Batches
    decreases |q|
  {
    if q == [] then [] else (if q[0] == [] then [] else [q[0]]) + DropEmpty(q[1..])
  }

  lemma {:induction false} DropEmptyKeepsFold(row: Option<Row>, q: Batches, key: Key)
    ensures Fold(row, DropEmpty(q), key) == Fold(row, q, key)
    decreases |q|
  {
    if q != [] {
      DropEmptyKeepsFold(FoldOps(row, q[0], key), q[1..], key);
      if q[0] != [] {
        assert DropEmpty(q)[0] == q[0] && DropEmpty(q)[1..] == DropEmpty(q[1..]);
      } else {
        assert DropEmpty(q) == DropEmpty(q[1..]);
      }
    }
  }
}
