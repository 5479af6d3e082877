/** The loop of `coalesce_unsent` (crates/doc/src/registry.rs:876-933): one pass over the unsent
batches, folding each op into the row's later one where the step is allowed. */
module TailRewrite {
  import opened Wrappers
  import opened RegistryCore
  import opened OpRewriting
  import opened Queue

  /** Where a row's latest op sits, and whether it heads a run of like session statuses. */
  datatype Slot = Slot(bi: nat, oi: nat, head: bool)

  predicate Past(bi: nat, oi: nat, bi': nat, oi': nat) {
    bi > bi' || (bi == bi' && oi > oi')
  }

  /** The pass has handled position (x, y). */
  predicate Done(x: nat, y: nat, bi: nat, oi: nat) {
    Past(bi, oi, x, y)
  }

  /** `last` points at each handled row's latest op. */
  ghost predicate Indexed(tail: Batches, last: map<Key, Slot>, bi: nat, oi: nat) {
    && (forall k :: k in last ==>
         && last[k].bi < |tail| && last[k].oi < |tail[last[k].bi]| && Done(last[k].bi, last[k].oi, bi, oi)
         && tail[last[k].bi][last[k].oi].key == k)
    && (forall x: nat, y: nat :: x < |tail| && y < |tail[x]| && Done(x, y, bi, oi) ==>
         && tail[x][y].key in last
         && !Past(x, y, last[tail[x][y].key].bi, last[tail[x][y].key].oi))
  }

  /** A handled chat op that gates notifications about chat `id`. */
  predicate GateAt(tail: Batches, at: (nat, nat), id: string, bi: nat, oi: nat) {
    && at.0 < |tail| && at.1 < |tail[at.0]| && Done(at.0, at.1, bi, oi)
    && tail[at.0][at.1].key == Key(CHATS, id) && Gates(tail[at.0][at.1])
  }

  /** `gating` is at or past every handled chat op that gates notifications. */
  ghost predicate GateLatest(tail: Batches, gating: map<string, (nat, nat)>, bi: nat, oi: nat) {
    forall x: nat, y: nat :: x < |tail| && y < |tail[x]| && Done(x, y, bi, oi) && tail[x][y].key.kind == CHATS && Gates(tail[x][y]) ==>
      && tail[x][y].key.id in gating
      && !Past(x, y, gating[tail[x][y].key.id].0, gating[tail[x][y].key.id].1)
  }

  /** `gating` points at the latest handled chat op that gates notifications. */
  ghost predicate Gated(tail: Batches, gating: map<string, (nat, nat)>, bi: nat, oi: nat) {
    && GateLatest(tail, gating, bi, oi)
    && (forall id :: id in gating ==> GateAt(tail, gating[id], id, bi, oi))
  }

  predicate Follows(head: Option<Op>, op: Op) {
    head.Some? && head.value.op != Delete && Signal(head.value) == Signal(op)
  }

  /** A session op heads a run exactly when it follows no op of the same status. */
  ghost predicate Headed(tail: Batches, last: map<Key, Slot>) {
    forall k :: k in last && k.kind == SESSIONS && last[k].bi < |tail| && |tail[last[k].bi]| == 1 ==>
      (last[k].head <==> !Follows(LastOp(tail[..last[k].bi], k), tail[last[k].bi][0]))
  }

  // ── the latest op on a row ────────────────────────────────────────────────

  lemma {:induction false} LastInIs(ops: seq<Op>, key: Key, o: nat)
    requires o < |ops| && ops[o].key == key
    requires forall y :: o < y < |ops| ==> ops[y].key != key
    ensures LastIn(ops, key) == Some(ops[o])
    decreases |ops|
  {
    if o < |ops| - 1 {
      LastInIs(ops[..|ops| - 1], key, o);
    }
  }

  lemma {:induction false} LastInNone(ops: seq<Op>, key: Key)
    requires !Mentions(ops, key)
    ensures LastIn(ops, key) == None
    decreases |ops|
  {
    if ops != [] {
      var front := ops[..|ops| - 1];
      assert forall i :: 0 <= i < |front| ==> front[i] == ops[i];
      assert ops[|ops| - 1].key != key;
      LastInNone(front, key);
    }
  }

  lemma {:induction false} LastOpIs(q: Batches, key: Key, b: nat, o: nat)
    requires b < |q| && o < |q[b]| && q[b][o].key == key
    requires forall y :: o < y < |q[b]| ==> q[b][y].key != key
    requires Untouched(q[b + 1..], key)
    ensures LastOp(q, key) == Some(q[b][o])
  {
    LastInIs(q[b], key, o);
    LastOpSkip(q, b + 1, key);
    assert q[..b + 1][b] == q[b];
  }

  lemma {:induction false} LastOpSkip(q: Batches, b: nat, key: Key)
    requires b <= |q| && Untouched(q[b..], key)
    ensures LastOp(q, key) == LastOp(q[..b], key)
    decreases |q|
  {
    if b < |q| {
      var front := q[..|q| - 1];
      assert q[b..][|q| - 1 - b] == q[|q| - 1];
      LastInNone(q[|q| - 1], key);
      assert forall i :: 0 <= i < |front[b..]| ==> front[b..][i] == q[b..][i];
      LastOpSkip(front, b, key);
      assert front[..b] == q[..b];
    } else {
      assert q[..b] == q;
    }
  }

  /** Batches that do not mention a row are free to change. */
  lemma {:induction false} LastOpFrame(q: Batches, q': Batches, key: Key)
    requires |q| == |q'|
    requires forall i :: 0 <= i < |q| ==> q[i] == q'[i] || (!Mentions(q[i], key) && !Mentions(q'[i], key))
    ensures LastOp(q, key) == LastOp(q', key)
    decreases |q|
  {
    if q != [] {
      var n := |q| - 1;
      LastOpFrame(q[..n], q'[..n], key);
      if q[n] != q'[n] {
        LastInNone(q[n], key);
        LastInNone(q'[n], key);
      }
    }
  }

  // ── one iteration ─────────────────────────────────────────────────────────

  function PrevOp(tail: Batches, last: map<Key, Slot>, key: Key): Option<Op>
    requires key in last ==> last[key].bi < |tail| && last[key].oi < |tail[last[key].bi]|
  {
    if key in last then Some(tail[last[key].bi][last[key].oi]) else None
  }

  predicate IsHead(prev: Option<Op>, op: Op) {
    op.key.kind == SESSIONS && !Follows(prev, op)
  }

  /** The source's `may_move`, for an op whose previous op sits at `at`. */
  predicate Allowed(last: map<Key, Slot>, gating: map<string, (nat, nat)>, at: Slot, prev: Op, op: Op) {
    if op.key.kind == SESSIONS then
      && Follows(Some(prev), op) && !at.head
      && !(op.key.id in gating && Past(gating[op.key.id].0, gating[op.key.id].1, at.bi, at.oi))
    else if op.key.kind == CHATS && Gates(prev) then
      var s := Key(SESSIONS, op.key.id);
      !(s in last && Past(last[s].bi, last[s].oi, at.bi, at.oi))
    else true
  }

  lemma {:induction false} BetweenUntouched(tail: Batches, last: map<Key, Slot>, i: nat, j: nat, key: Key)
    requires i < j < |tail| && Indexed(tail, last, j, 0)
    requires key in last ==> !Past(last[key].bi, last[key].oi, i, 0)
    ensures Untouched(tail[i + 1..j], key)
  {
    var mid := tail[i + 1..j];
    forall x | 0 <= x < |mid| ensures !Mentions(mid[x], key) {
      var b := i + 1 + x;
      assert mid[x] == tail[b];
      forall y | 0 <= y < |tail[b]| ensures tail[b][y].key != key {
        assert Done(b, y, j, 0);
      }
    }
  }

  /** What the source checks before folding is what a rewriting step requires. */
  lemma {:induction false} AllowedIsStep(tail: Batches, last: map<Key, Slot>, gating: map<string, (nat, nat)>, j: nat, fits: Op -> bool)
    requires j < |tail| && |tail[j]| == 1
    requires Indexed(tail, last, j, 0) && Gated(tail, gating, j, 0) && Headed(tail, last)
    requires tail[j][0].key in last
    requires var at := last[tail[j][0].key];
      && at.bi < j && |tail[at.bi]| == 1 && at.oi == 0
      && Allowed(last, gating, at, tail[at.bi][0], tail[j][0])
      && CoalesceOps(tail[at.bi][0], tail[j][0], fits).Some?
    ensures var i := last[tail[j][0].key].bi; Foldable(tail, i, j, fits) && MayMove(tail, i, j)
  {
    var op := tail[j][0];
    var i := last[op.key].bi;
    BetweenUntouched(tail, last, i, j, op.key);
    if op.key.kind == SESSIONS {
      var mid: Batches := tail[i + 1..j];
      forall k: int, o: int | 0 <= k < |mid| && 0 <= o < |mid[k]| && mid[k][o].key == Key(CHATS, op.key.id)
        ensures !Gates(mid[k][o])
      {
        assert mid[k] == tail[i + 1 + k];
        assert Done(i + 1 + k, o, j, 0);
      }
      assert Headed(tail, last) && op.key in last;
    } else if op.key.kind == CHATS && Gates(tail[i][0]) {
      BetweenUntouched(tail, last, i, j, Key(SESSIONS, op.key.id));
    }
  }

  /** And the other way: a step into batch `j` that may be made is one the source's checks allow. */
  lemma {:induction false} StepIsAllowed(tail: Batches, last: map<Key, Slot>, gating: map<string, (nat, nat)>, i: nat, j: nat, fits: Op -> bool)
    requires Foldable(tail, i, j, fits) && MayMove(tail, i, j)
    requires Indexed(tail, last, j, 0) && Gated(tail, gating, j, 0) && Headed(tail, last)
    ensures var key := tail[j][0].key;
      key in last && last[key].bi == i && last[key].oi == 0 && Allowed(last, gating, last[key], tail[i][0], tail[j][0])
  {
    hide NoGate;
    var op := tail[j][0];
    assert Done(i, 0, j, 0) && tail[i][0].key == op.key;
    NotBetween(tail, last, i, j, op.key);
    if op.key.kind == SESSIONS && op.key.id in gating {
      var at := gating[op.key.id];
      assert GateAt(tail, at, op.key.id, j, 0);
      if i < at.0 {
        GateBetween(tail, i, j, at.0, at.1, op.key.id);
      }
    } else if op.key.kind == CHATS && Gates(tail[i][0]) {
      NotBetween(tail, last, i, j, Key(SESSIONS, op.key.id));
    }
  }

  /** The index points at no batch between when none mentions the row. */
  lemma {:induction false} NotBetween(tail: Batches, last: map<Key, Slot>, i: nat, j: nat, key: Key)
    requires i < j < |tail| && Indexed(tail, last, j, 0) && Untouched(tail[i + 1..j], key)
    ensures key in last ==> last[key].bi <= i
  {
    hide Untouched;
    if key in last && i < last[key].bi {
      UntouchedAt(tail[i + 1..j], last[key].bi - i - 1, last[key].oi, key);
    }
  }

  lemma {:induction false} UntouchedAt(q: Batches, x: nat, y: nat, key: Key)
    requires Untouched(q, key) && x < |q| && y < |q[x]|
    ensures q[x][y].key != key
  {
    assert !Mentions(q[x], key);
  }

  lemma {:induction false} GateBetween(tail: Batches, i: nat, j: nat, b: nat, o: nat, id: string)
    requires i < b < j <= |tail| && o < |tail[b]| && tail[b][o].key == Key(CHATS, id) && Gates(tail[b][o])
    ensures !NoGate(tail[i + 1..j], id)
  {
    assert tail[i + 1..j][b - i - 1] == tail[b];
  }

  /** A fold of a gating chat op gates. */
  lemma {:induction false} MergedGates(a: Op, b: Op, fits: Op -> bool)
    requires CoalesceOps(a, b, fits).Some? && Gates(a)
    ensures Gates(CoalesceOps(a, b, fits).value)
  {
    var (op, hlc) := JointKind(a, b).value;
    MergedAt(a, b, op, hlc, "title");
    MergedAt(a, b, op, hlc, "archived");
    MergedAt(a, b, op, hlc, "parentChatId");
  }

  lemma {:induction false} MergedSignal(a: Op, b: Op, fits: Op -> bool)
    requires CoalesceOps(a, b, fits).Some? && Signal(a) == Signal(b)
    ensures Signal(CoalesceOps(a, b, fits).value) == Signal(b)
  {
    var (op, hlc) := JointKind(a, b).value;
    MergedAt(a, b, op, hlc, "status");
    MergedAt(a, b, op, hlc, "lastCompletedTurn");
  }

  /** What the pass knows when it stands at (bi, oi). */
  ghost predicate Good(tail: Batches, last: map<Key, Slot>, gating: map<string, (nat, nat)>, bi: nat, oi: nat) {
    Indexed(tail, last, bi, oi) && Gated(tail, gating, bi, oi) && Headed(tail, last)
  }

  function NextGating(gating: map<string, (nat, nat)>, op: Op, bi: nat, oi: nat): map<string, (nat, nat)> {
    if op.key.kind == CHATS && Gates(op) then gating[op.key.id := (bi, oi)] else gating
  }

  /** The op at (bi, oi) stays where it is. */
  lemma {:induction false} Advance(tail: Batches, last: map<Key, Slot>, gating: map<string, (nat, nat)>, bi: nat, oi: nat)
    requires bi < |tail| && oi < |tail[bi]| && Good(tail, last, gating, bi, oi)
    ensures var op := tail[bi][oi];
      Good(tail, last[op.key := Slot(bi, oi, IsHead(PrevOp(tail, last, op.key), op))], NextGating(gating, op, bi, oi), bi, oi + 1)
  {
    AdvanceHeaded(tail, last, bi, oi);
    AdvanceGated(tail, gating, bi, oi);
    AdvanceIndexed(tail, last, bi, oi, IsHead(PrevOp(tail, last, tail[bi][oi].key), tail[bi][oi]));
    hide Indexed, Gated, Headed;
  }

  lemma {:induction false} AdvanceIndexed(tail: Batches, last: map<Key, Slot>, bi: nat, oi: nat, head: bool)
    requires bi < |tail| && oi < |tail[bi]| && Indexed(tail, last, bi, oi)
    ensures Indexed(tail, last[tail[bi][oi].key := Slot(bi, oi, head)], bi, oi + 1)
  {
    forall x: nat, y: nat | x < |tail| && y < |tail[x]| && Done(x, y, bi, oi + 1)
      ensures Done(x, y, bi, oi) || (x == bi && y == oi)
    {
    }
  }

  lemma {:induction false} AdvanceGated(tail: Batches, gating: map<string, (nat, nat)>, bi: nat, oi: nat)
    requires bi < |tail| && oi < |tail[bi]| && Gated(tail, gating, bi, oi)
    ensures Gated(tail, NextGating(gating, tail[bi][oi], bi, oi), bi, oi + 1)
  {
    forall x: nat, y: nat | x < |tail| && y < |tail[x]| && Done(x, y, bi, oi + 1)
      ensures Done(x, y, bi, oi) || (x == bi && y == oi)
    {
    }
  }

  /** Batch `i`, holding the latest op on the row so far, is folded into batch `j`. */
  predicate FoldsInto(tail: Batches, tail': Batches, last: map<Key, Slot>, j: nat, m: Op) {
    && j < |tail| && |tail[j]| == 1 && m.key == tail[j][0].key && m.key in last
    && last[m.key].bi < j && |tail[last[m.key].bi]| == 1 && tail' == tail[last[m.key].bi := []][j := [m]]
  }

  lemma {:induction false} FoldIndexed(tail: Batches, tail': Batches, last: map<Key, Slot>, j: nat, m: Op, head: bool)
    requires FoldsInto(tail, tail', last, j, m) && Indexed(tail, last, j, 0)
    ensures Indexed(tail', last[m.key := Slot(j, 0, head)], j, 1)
  {
    var i := last[m.key].bi;
    var last' := last[m.key := Slot(j, 0, head)];
    forall x: nat, y: nat | x < |tail'| && y < |tail'[x]| && Done(x, y, j, 1)
      ensures tail'[x][y].key in last'
      ensures !Past(x, y, last'[tail'[x][y].key].bi, last'[tail'[x][y].key].oi)
    {
      if x != j {
        assert Done(x, y, j, 0) && x != i && tail'[x] == tail[x];
      }
    }
    forall k | k in last && k != m.key
      ensures last[k].bi != i && last[k].bi != j
    {
      assert tail[last[k].bi][last[k].oi].key == k;
    }
  }

  lemma {:induction false} FoldGated(tail: Batches, tail': Batches, last: map<Key, Slot>, gating: map<string, (nat, nat)>, j: nat, m: Op)
    requires FoldsInto(tail, tail', last, j, m) && Indexed(tail, last, j, 0) && Gated(tail, gating, j, 0)
    requires last[m.key].oi == 0 && (Gates(tail[last[m.key].bi][0]) ==> Gates(m))
    ensures Gated(tail', NextGating(gating, m, j, 0), j, 1)
  {
    FoldLatest(tail, tail', last, gating, j, m);
    var i := last[m.key].bi;
    assert tail[i][0].key == m.key && tail'[i] == [] && tail'[j] == [m];
    hide Indexed, Gates, GateLatest;
    var gating' := NextGating(gating, m, j, 0);
    forall id | id in gating' ensures GateAt(tail', gating'[id], id, j, 1) {
      if gating'[id] != (j, 0) {
        assert GateAt(tail, gating[id], id, j, 0);
      }
    }
  }

  lemma {:induction false} FoldLatest(tail: Batches, tail': Batches, last: map<Key, Slot>, gating: map<string, (nat, nat)>, j: nat, m: Op)
    requires FoldsInto(tail, tail', last, j, m) && GateLatest(tail, gating, j, 0)
    ensures GateLatest(tail', NextGating(gating, m, j, 0), j, 1)
  {
    hide Gates;
    forall x: nat, y: nat | x < |tail'| && y < |tail'[x]| && Done(x, y, j, 1)
      ensures (x == j && y == 0) || (Done(x, y, j, 0) && tail'[x] == tail[x])
    {
    }
  }

  lemma {:induction false} FoldHeaded(tail: Batches, tail': Batches, last: map<Key, Slot>, j: nat, m: Op, head: bool)
    requires FoldsInto(tail, tail', last, j, m) && Indexed(tail, last, j, 0) && Headed(tail, last)
    requires m.key.kind == SESSIONS ==> (head <==> !Follows(LastOp(tail[..last[m.key].bi], m.key), m))
    ensures Headed(tail', last[m.key := Slot(j, 0, head)])
  {
    var i := last[m.key].bi;
    forall k | k in last && k != m.key
      ensures last[k].bi != i && last[k].bi != j && tail'[last[k].bi] == tail[last[k].bi]
      ensures LastOp(tail'[..last[k].bi], k) == LastOp(tail[..last[k].bi], k)
    {
      assert tail[last[k].bi][last[k].oi].key == k;
      LastOpFrame(tail[..last[k].bi], tail'[..last[k].bi], k);
    }
    BetweenUntouched(tail, last, i, j, m.key);
    var rest := tail'[..j][i..];
    forall x | 0 <= x < |rest| ensures !Mentions(rest[x], m.key) {
      if x > 0 {
        assert rest[x] == tail[i + 1..j][x - 1];
      }
    }
    LastOpSkip(tail'[..j], i, m.key);
    assert tail'[..j][..i] == tail[..i];
  }

  /** A session op left in place follows the op the index points at. */
  lemma {:induction false} AdvanceHeaded(tail: Batches, last: map<Key, Slot>, bi: nat, oi: nat)
    requires bi < |tail| && oi < |tail[bi]|
    requires Indexed(tail, last, bi, oi) && Headed(tail, last)
    ensures var op := tail[bi][oi];
      Headed(tail, last[op.key := Slot(bi, oi, IsHead(PrevOp(tail, last, op.key), op))])
  {
    var op := tail[bi][oi];
    var prev := PrevOp(tail, last, op.key);
    if op.key.kind == SESSIONS && |tail[bi]| == 1 && prev == None {
      forall x | 0 <= x < bi ensures !Mentions(tail[..bi][x], op.key) {
        forall y | 0 <= y < |tail[x]| ensures tail[x][y].key != op.key {
          assert Done(x, y, bi, oi);
        }
      }
      assert tail[..bi][0..] == tail[..bi] && tail[..bi][..0] == [];
      LastOpSkip(tail[..bi], 0, op.key);
    } else if op.key.kind == SESSIONS && |tail[bi]| == 1 {
      var at := last[op.key];
      assert at.bi < bi;
      var rest := tail[..bi][at.bi + 1..];
      forall x | 0 <= x < |rest| ensures !Mentions(rest[x], op.key) {
        var b := at.bi + 1 + x;
        assert rest[x] == tail[b];
        forall y | 0 <= y < |tail[b]| ensures tail[b][y].key != op.key {
          assert Done(b, y, bi, oi);
        }
      }
      forall y | at.oi < y < |tail[at.bi]| ensures tail[at.bi][y].key != op.key {
        assert Done(at.bi, y, bi, oi);
      }
      LastOpIs(tail[..bi], op.key, at.bi, at.oi);
    }
  }

  lemma {:induction false} ExtendRewriting(trace: seq<Batches>, q: Batches, fits: Op -> bool)
    requires Rewriting(trace, fits) && Step(trace[|trace| - 1], q, fits)
    ensures Rewriting(trace + [q], fits)
  {
    assert (trace + [q])[..|trace|] == trace;
  }

  /** A batch is left alone, emptied, or replaced; only single-op batches lose or change their op. */
  predicate Kept(q: seq<Op>, q': seq<Op>, gained: bool) {
    (!gained && q' == q) || (|q| == 1 && q' == []) || (gained && |q| == 1 && |q'| == 1)
  }

  /** A fold the source makes is a rewriting step, and leaves the pass knowing as much. */
  lemma {:induction false} FoldStep(tail: Batches, last: map<Key, Slot>, gating: map<string, (nat, nat)>, j: nat, fits: Op -> bool)
    requires j < |tail| && |tail[j]| == 1 && Good(tail, last, gating, j, 0) && tail[j][0].key in last
    requires var at := last[tail[j][0].key];
      && at.bi < |tail| && |tail[at.bi]| == 1 && at.oi == 0
      && Allowed(last, gating, at, tail[at.bi][0], tail[j][0])
      && CoalesceOps(tail[at.bi][0], tail[j][0], fits).Some?
    ensures var op := tail[j][0];
      var i := last[op.key].bi;
      var m := CoalesceOps(tail[i][0], op, fits).value;
      var tail' := tail[i := []][j := [m]];
      && i < j && m.key == op.key && StepAt(tail, tail', j, fits) && Step(tail, tail', fits)
      && FoldedAt(tail, tail', j) && MayGain(tail, j, fits)
      && Good(tail', last[op.key := Slot(j, 0, IsHead(Some(tail[i][0]), op))], NextGating(gating, m, j, 0), j, 1)
  {
    var op := tail[j][0];
    var i := last[op.key].bi;
    var m := CoalesceOps(tail[i][0], op, fits).value;
    assert i < j by {
      assert Done(i, last[op.key].oi, j, 0);
    }
    AllowedIsStep(tail, last, gating, j, fits);
    assert tail[i := []][j := [m]] == Folded(tail, i, j, fits);
    if op.key.kind == SESSIONS {
      MergedSignal(tail[i][0], op, fits);
      assert Follows(LastOp(tail[..i], op.key), tail[i][0]);
    }
    if Gates(tail[i][0]) {
      MergedGates(tail[i][0], op, fits);
    }
    var next, head := tail[i := []][j := [m]], IsHead(Some(tail[i][0]), op);
    FoldIndexed(tail, next, last, j, m, head);
    FoldGated(tail, next, last, gating, j, m);
    FoldHeaded(tail, next, last, j, m, head);
  }

  /** Some earlier batch could be folded into batch `j` by a permitted step. */
  ghost predicate MayGain(q: Batches, j: nat, fits: Op -> bool) {
    exists i: nat :: Foldable(q, i, j, fits) && MayMove(q, i, j)
  }

  /** Of the first `n` batches, none is left that a permitted step could still be made into, save
  those that took one already and writes of a chat's label. */
  ghost predicate Exhausted(tail: Batches, gained: seq<bool>, n: nat, fits: Op -> bool)
    requires n <= |gained|
  {
    forall i: nat, j: nat :: j < n && !gained[j] && Foldable(tail, i, j, fits) && MayMove(tail, i, j) ==> Label(tail[i][0])
  }

  predicate Label(op: Op) {
    op.key.kind == CHATS && Gates(op)
  }

  /** Every batch marked as having gained content took a step. */
  ghost predicate Earned(trace: seq<Batches>, gained: seq<bool>, fits: Op -> bool) {
    forall j: nat :: j < |gained| && gained[j] ==> exists t: nat :: t + 1 < |trace| && StepFrom(trace, t, j, fits)
  }

  ghost predicate StepFrom(trace: seq<Batches>, t: nat, j: nat, fits: Op -> bool)
    requires t + 1 < |trace|
  {
    StepAt(trace[t], trace[t + 1], j, fits)
  }

  /** A rewriting that collapsed what it could. */
  ghost predicate Collapsed(trace: seq<Batches>, gained: seq<bool>, fits: Op -> bool) {
    |trace| > 0 && Earned(trace, gained, fits) && Exhausted(trace[|trace| - 1], gained, |gained|, fits)
  }

  lemma {:induction false} NothingGained(q: Batches, gained: seq<bool>, fits: Op -> bool)
    requires |gained| == |q| && forall j :: 0 <= j < |gained| ==> !gained[j]
    requires |q| < 2 || Exhausted(q, gained, |q|, fits)
    ensures Collapsed([q], gained, fits)
  {
  }

  lemma {:induction false} EarnedMore(trace: seq<Batches>, gained: seq<bool>, q: Batches, bi: nat, fits: Op -> bool)
    requires |trace| > 0 && bi < |gained| && Earned(trace, gained, fits) && StepAt(trace[|trace| - 1], q, bi, fits)
    ensures Earned(trace + [q], gained[bi := true], fits)
  {
    hide StepAt;
    var more := trace + [q];
    var marked := gained[bi := true];
    forall j: nat | j < |gained| && marked[j] ensures exists t: nat :: t + 1 < |more| && StepFrom(more, t, j, fits) {
      if j == bi {
        assert StepFrom(more, |trace| - 1, j, fits);
      } else {
        var t: nat :| t + 1 < |trace| && StepFrom(trace, t, j, fits);
        assert StepFrom(more, t, j, fits);
      }
    }
  }

  /** A later step makes no earlier one possible, but between chat ops whose session op it moves. */
  lemma {:induction false} RefusedStays(q: Batches, i': nat, j': nat, i: nat, j: nat, fits: Op -> bool)
    requires Foldable(q, i', j', fits) && MayMove(q, i', j') && i < j < j'
    requires var q' := Folded(q, i', j', fits); Foldable(q', i, j, fits) && MayMove(q', i, j) && !Label(q'[i][0])
    ensures Foldable(q, i, j, fits) && MayMove(q, i, j)
  {
    var q': Batches := Folded(q, i', j', fits);
    var key := q'[i][0].key;
    assert i' != i && i' != j && q'[i] == q[i] && q'[j] == q[j];
    StillBetween(q, i', j', i, key, fits);
    StillBetween(q, i', j', j, key, fits);
    hide Foldable, MayMove, CoalesceOps, LastOp;
    StillUntouched(q, q', i', i + 1, j, key);
    if key.kind == SESSIONS {
      SessionStays(q, q', i', j', i, j, key);
    }
    StillFoldable(q, q', i, j, fits);
  }

  lemma {:induction false} StillFoldable(q: Batches, q': Batches, i: nat, j: nat, fits: Op -> bool)
    requires |q| == |q'| && i < j < |q| && q[i] == q'[i] && q[j] == q'[j] && Foldable(q', i, j, fits) && MayMove(q', i, j) && !Label(q'[i][0])
    requires Untouched(q[i + 1..j], q[i][0].key)
    requires q[i][0].key.kind == SESSIONS ==> SessionMayMove(q, i, j)
    ensures Foldable(q, i, j, fits) && MayMove(q, i, j)
  {
  }

  /** Emptying a batch of another row changes nothing about which batches mention this one. */
  lemma {:induction false} StillUntouched(q: Batches, q': Batches, i': nat, lo: nat, hi: nat, key: Key)
    requires lo <= hi <= |q| == |q'| && Untouched(q'[lo..hi], key)
    requires forall x :: lo <= x < hi ==> q[x] == q'[x] || x == i'
    requires lo <= i' < hi ==> !Mentions(q[i'], key)
    ensures Untouched(q[lo..hi], key)
  {
    forall x | 0 <= x < hi - lo ensures !Mentions(q[lo..hi][x], key) {
      assert !Mentions(q'[lo..hi][x], key);
    }
  }

  lemma {:induction false} SessionStays(q: Batches, q': Batches, i': nat, j': nat, i: nat, j: nat, key: Key)
    requires i < j < j' < |q| == |q'| && i' < j' && |q[i']| == 1 == |q[j']| && MayMove(q, i', j')
    requires forall x :: 0 <= x < j ==> q'[x] == if x == i' then [] else q[x]
    requires q'[i] == q[i] && q'[j] == q[j] && |q[i]| == 1 == |q[j]| && q[i][0].key == key == q[j][0].key && key.kind == SESSIONS
    requires i' < j ==> q[i'][0].key != key
    requires SessionMayMove(q', i, j)
    ensures SessionMayMove(q, i, j)
  {
    hide Untouched;
    LastOpFrame(q[..i], q'[..i], key);
    var mid: Batches, mid': Batches := q[i + 1..j], q'[i + 1..j];
    forall k: int, o: int | 0 <= k < |mid| && 0 <= o < |mid[k]| && mid[k][o].key == Key(CHATS, key.id) ensures !Gates(mid[k][o]) {
      if i' == i + 1 + k {
        if Gates(mid[k][o]) {
          UntouchedAt(q[i' + 1..j'], j - i' - 1, 0, key);
        }
      } else {
        assert mid'[k] == mid[k];
      }
    }
  }

  /** A batch a step starts before and ends behind is on another row. */
  lemma {:induction false} StillBetween(q: Batches, i': nat, j': nat, j: nat, key: Key, fits: Op -> bool)
    requires Foldable(q, i', j', fits) && j < j' && |q[j]| == 1 && q[j][0].key == key
    ensures i' < j ==> !Mentions(q[i'], key) && q[i'][0].key != key
  {
    hide Untouched;
    if i' < j && q[i'][0].key == key {
      UntouchedAt(q[i' + 1..j'], j - i' - 1, 0, key);
    }
  }

  lemma {:induction false} ExhaustedStep(q: Batches, q': Batches, gained: seq<bool>, bi: nat, fits: Op -> bool)
    requires bi < |gained| == |q| && Exhausted(q, gained, bi, fits) && StepAt(q, q', bi, fits)
    ensures Exhausted(q', gained[bi := true], bi + 1, fits)
  {
    var i': nat :| Foldable(q, i', bi, fits) && MayMove(q, i', bi) && q' == Folded(q, i', bi, fits);
    forall i: nat, j: nat | j < bi + 1 && !gained[bi := true][j] && Foldable(q', i, j, fits) && MayMove(q', i, j)
      ensures Label(q'[i][0])
    {
      assert q'[i] == q[i];
      if !Label(q'[i][0]) {
        RefusedStays(q, i', bi, i, j, fits);
      }
    }
  }

  lemma {:induction false} ExhaustedNext(q: Batches, gained: seq<bool>, bi: nat, fits: Op -> bool)
    requires bi < |gained| == |q| && Exhausted(q, gained, bi, fits) && !MayGain(q, bi, fits)
    ensures Exhausted(q, gained, bi + 1, fits)
  {
    hide Foldable, MayMove;
  }

  /** The tail `q` partly rewritten: what each batch may have become. */
  ghost predicate Rewritten(q: Batches, tail: Batches, gained: seq<bool>, folded: nat, trace: seq<Batches>, fits: Op -> bool) {
    && |tail| == |gained| == |q|
    && |trace| > 0 && Rewriting(trace, fits) && trace[0] == q && trace[|trace| - 1] == tail
    && FoldedInto(trace, gained, fits) && Earned(trace, gained, fits)
    && (forall x :: 0 <= x < |q| ==> Kept(q[x], tail[x], gained[x]))
    && (folded == 0 ==> tail == q && forall x :: 0 <= x < |q| ==> !gained[x])
  }

  /** A single-op batch before `bi` was emptied and the single op of `bi` replaced. */
  ghost predicate FoldedAt(tail: Batches, tail': Batches, bi: nat) {
    bi < |tail| && |tail[bi]| == 1
    && exists i: nat, m :: i < bi && |tail[i]| == 1 && tail' == tail[i := []][bi := [m]]
  }

  lemma {:induction false} RewrittenStep(q: Batches, tail: Batches, gained: seq<bool>, folded: nat, trace: seq<Batches>, tail': Batches, bi: nat, fits: Op -> bool)
    requires Rewritten(q, tail, gained, folded, trace, fits)
    requires StepAt(tail, tail', bi, fits) && Step(tail, tail', fits) && FoldedAt(tail, tail', bi) && tail[bi] == q[bi] && !gained[bi]
    ensures Rewritten(q, tail', gained[bi := true], folded + 1, trace + [tail'], fits)
    ensures |tail'[bi]| == 1 && forall x :: bi < x < |tail| ==> tail'[x] == tail[x]
  {
    hide Rewriting, FoldedInto, Step, StepAt, Earned;
    EarnedMore(trace, gained, tail', bi, fits);
    ExtendRewriting(trace, tail', fits);
    FoldedIntoMore(trace, gained, bi, tail', fits);
  }

  /** The body of the source's inner loop, at position (bi, oi): it folds exactly when a permitted
  step into the batch exists, and then makes one. */
  method Visit(tail: Batches, last: map<Key, Slot>, gating: map<string, (nat, nat)>, bi: nat, oi: nat, fits: Op -> bool)
    returns (tail': Batches, last': map<Key, Slot>, gating': map<string, (nat, nat)>, merged: bool)
    requires bi < |tail| && oi < |tail[bi]| && Good(tail, last, gating, bi, oi)
    ensures Good(tail', last', gating', bi, oi + 1)
    ensures !merged ==> tail' == tail
    ensures merged ==> StepAt(tail, tail', bi, fits) && Step(tail, tail', fits) && FoldedAt(tail, tail', bi)
    ensures merged <==> MayGain(tail, bi, fits)
  {
    Turn(tail, last, gating, bi, oi, fits);
    Points(tail, last, bi, oi, tail[bi][oi].key);
    hide Good, StepAt, Step, FoldedAt, MayGain, NextGating, IsHead;
    var op := tail[bi][oi];
    var prev := PrevOp(tail, last, op.key);
    var head := IsHead(prev, op);
    var fold: Option<Op> := None;
    if prev.Some? && |tail[bi]| == 1 && |tail[last[op.key].bi]| == 1
       && Allowed(last, gating, last[op.key], prev.value, op)
    {
      fold := CoalesceOps(prev.value, op, fits);
    }
    merged := fold.Some?;
    tail' := tail;
    if merged {
      tail' := tail[last[op.key].bi := []][bi := [fold.value]];
      op := fold.value;
    }
    gating' := NextGating(gating, op, bi, oi);
    last' := last[op.key := Slot(bi, oi, head)];
  }

  /** The op the source folds an op and its row's previous one into, if its checks allow. */
  function FoldOf(tail: Batches, last: map<Key, Slot>, gating: map<string, (nat, nat)>, bi: nat, oi: nat, fits: Op -> bool): Option<Op>
    requires bi < |tail| && oi < |tail[bi]|
    requires var key := tail[bi][oi].key; key in last ==> last[key].bi < |tail| && last[key].oi < |tail[last[key].bi]|
  {
    var op := tail[bi][oi];
    var prev := PrevOp(tail, last, op.key);
    if prev.Some? && |tail[bi]| == 1 && |tail[last[op.key].bi]| == 1 && Allowed(last, gating, last[op.key], prev.value, op)
    then CoalesceOps(prev.value, op, fits) else None
  }

  lemma {:induction false} Turn(tail: Batches, last: map<Key, Slot>, gating: map<string, (nat, nat)>, bi: nat, oi: nat, fits: Op -> bool)
    requires bi < |tail| && oi < |tail[bi]| && Good(tail, last, gating, bi, oi)
    ensures var op := tail[bi][oi];
      var fold, slot := FoldOf(tail, last, gating, bi, oi, fits), Slot(bi, oi, IsHead(PrevOp(tail, last, op.key), op));
      && (fold.Some? <==> MayGain(tail, bi, fits))
      && (fold == None ==> Good(tail, last[op.key := slot], NextGating(gating, op, bi, oi), bi, oi + 1))
      && (fold.Some? ==>
            var tail' := tail[last[op.key].bi := []][bi := [fold.value]];
            && fold.value.key == op.key && StepAt(tail, tail', bi, fits) && Step(tail, tail', fits) && FoldedAt(tail, tail', bi)
            && Good(tail', last[op.key := slot], NextGating(gating, fold.value, bi, oi), bi, oi + 1))
  {
    Points(tail, last, bi, oi, tail[bi][oi].key);
    hide Indexed, Gated, Headed, Allowed, StepAt, Step, FoldedAt, MayGain, CoalesceOps, IsHead, NextGating;
    if FoldOf(tail, last, gating, bi, oi, fits).Some? {
      FoldStep(tail, last, gating, bi, fits);
    } else {
      Advance(tail, last, gating, bi, oi);
      Refused(tail, last, gating, bi, fits);
    }
  }

  lemma {:induction false} Points(tail: Batches, last: map<Key, Slot>, bi: nat, oi: nat, key: Key)
    requires Indexed(tail, last, bi, oi)
    ensures key in last ==>
      && last[key].bi < |tail| && last[key].oi < |tail[last[key].bi]| && tail[last[key].bi][last[key].oi].key == key
      && (|tail[last[key].bi]| == 1 ==> last[key].oi == 0)
  {
  }

  /** Where the source's checks refuse, no permitted step exists. */
  lemma {:induction false} Refused(tail: Batches, last: map<Key, Slot>, gating: map<string, (nat, nat)>, bi: nat, fits: Op -> bool)
    requires bi < |tail| && (|tail[bi]| == 1 ==> Indexed(tail, last, bi, 0) && Gated(tail, gating, bi, 0) && Headed(tail, last))
    requires |tail[bi]| == 1 && tail[bi][0].key in last ==>
      var at := last[tail[bi][0].key];
      at.bi < |tail| && (|tail[at.bi]| == 1 && Allowed(last, gating, at, tail[at.bi][0], tail[bi][0]) ==>
        CoalesceOps(tail[at.bi][0], tail[bi][0], fits) == None)
    ensures !MayGain(tail, bi, fits)
  {
    hide Indexed, Gated, Headed;
    forall i: nat | Foldable(tail, i, bi, fits) && MayMove(tail, i, bi) ensures false {
      StepIsAllowed(tail, last, gating, i, bi, fits);
    }
  }

  /** Batches from `bi` on are as they were. */
  predicate AsWas(q: Batches, tail: Batches, gained: seq<bool>, bi: nat) {
    |q| == |tail| == |gained| && forall x :: bi <= x < |q| ==> tail[x] == q[x] && !gained[x]
  }

  /** What the pass has done and knows when it stands at the start of batch `bi`. */
  ghost predicate At(q: Batches, p: Pass, trace: seq<Batches>, bi: nat, fits: Op -> bool) {
    && Rewritten(q, p.tail, p.gained, p.folded, trace, fits)
    && AsWas(q, p.tail, p.gained, bi)
    && bi <= |q| && Exhausted(p.tail, p.gained, bi, fits)
    && Good(p.tail, p.last, p.gating, bi, 0)
  }

  /** The variables of the pass. */
  datatype Pass = Pass(
    tail: Batches, gained: seq<bool>, folded: nat, last: map<Key, Slot>, gating: map<string, (nat, nat)>)

  /** The same, inside batch `bi`, before its op `oi`. */
  ghost predicate Within(q: Batches, p: Pass, trace: seq<Batches>, bi: nat, oi: nat, fits: Op -> bool) {
    && bi < |q| && Rewritten(q, p.tail, p.gained, p.folded, trace, fits)
    && AsWas(q, p.tail, p.gained, if oi == 0 then bi else bi + 1) && |p.tail[bi]| == |q[bi]|
    && Exhausted(p.tail, p.gained, if oi == 0 then bi else bi + 1, fits)
    && oi <= |q[bi]| && Good(p.tail, p.last, p.gating, bi, oi)
  }

  lemma {:induction false} Gained(q: Batches, p: Pass, trace: seq<Batches>, bi: nat, oi: nat, p': Pass, fits: Op -> bool)
    requires Within(q, p, trace, bi, oi, fits) && oi < |q[bi]|
    requires Good(p'.tail, p'.last, p'.gating, bi, oi + 1)
    requires StepAt(p.tail, p'.tail, bi, fits) && Step(p.tail, p'.tail, fits) && FoldedAt(p.tail, p'.tail, bi)
    requires |p.gained| == |q| && p'.gained == p.gained[bi := true] && p'.folded == p.folded + 1
    ensures Within(q, p', trace + [p'.tail], bi, oi + 1, fits)
  {
    hide Good, Exhausted, StepAt, Step, MayGain, Rewritten;
    assert oi == 0 && |q| == |p.tail|;
    hide FoldedAt;
    ExhaustedStep(p.tail, p'.tail, p.gained, bi, fits);
    RewrittenStep(q, p.tail, p.gained, p.folded, trace, p'.tail, bi, fits);
  }

  lemma {:induction false} Passed(q: Batches, p: Pass, trace: seq<Batches>, bi: nat, oi: nat, p': Pass, fits: Op -> bool)
    requires Within(q, p, trace, bi, oi, fits) && oi < |q[bi]|
    requires Good(p'.tail, p'.last, p'.gating, bi, oi + 1)
    requires p'.tail == p.tail && p'.gained == p.gained && p'.folded == p.folded && !MayGain(p.tail, bi, fits)
    ensures Within(q, p', trace, bi, oi + 1, fits)
  {
    hide Good, Exhausted, MayGain, Rewritten;
    if oi == 0 {
      ExhaustedNext(p.tail, p.gained, bi, fits);
    }
  }

  lemma {:induction false} Knows(q: Batches, p: Pass, trace: seq<Batches>, bi: nat, oi: nat, fits: Op -> bool)
    requires Within(q, p, trace, bi, oi, fits)
    ensures bi < |q| == |p.tail| == |p.gained| && |p.tail[bi]| == |q[bi]| && Good(p.tail, p.last, p.gating, bi, oi)
  {
  }

  lemma {:induction false} Entered(q: Batches, p: Pass, trace: seq<Batches>, bi: nat, fits: Op -> bool)
    requires bi < |q| && At(q, p, trace, bi, fits)
    ensures Within(q, p, trace, bi, 0, fits)
  {
  }

  lemma {:induction false} Left(q: Batches, p: Pass, trace: seq<Batches>, bi: nat, fits: Op -> bool)
    requires bi < |q| && Within(q, p, trace, bi, |q[bi]|, fits)
    ensures At(q, p, trace, bi + 1, fits)
  {
    hide Good, Exhausted, Rewritten;
    if q[bi] == [] {
      assert !MayGain(p.tail, bi, fits);
      ExhaustedNext(p.tail, p.gained, bi, fits);
    }
    NextBatch(p.tail, p.last, p.gating, bi);
  }

  /** One turn of the source's inner loop. */
  method VisitOp(ghost q: Batches, p: Pass, ghost trace: seq<Batches>, bi: nat, oi: nat, fits: Op -> bool)
    returns (p': Pass, ghost trace': seq<Batches>)
    requires Within(q, p, trace, bi, oi, fits) && oi < |q[bi]|
    ensures Within(q, p', trace', bi, oi + 1, fits)
  {
    Knows(q, p, trace, bi, oi, fits);
    hide Within, Good, StepAt, Step, MayGain, FoldedAt;
    var next, last, gating, merged := Visit(p.tail, p.last, p.gating, bi, oi, fits);
    if merged {
      p' := Pass(next, p.gained[bi := true], p.folded + 1, last, gating);
      trace' := trace + [next];
      Gained(q, p, trace, bi, oi, p', fits);
    } else {
      p' := Pass(next, p.gained, p.folded, last, gating);
      trace' := trace;
      Passed(q, p, trace, bi, oi, p', fits);
    }
  }

  /** The source's inner loop, over the ops of one batch. */
  method VisitBatch(ghost q: Batches, p: Pass, ghost trace: seq<Batches>, bi: nat, fits: Op -> bool)
    returns (p': Pass, ghost trace': seq<Batches>)
    requires bi < |q| && At(q, p, trace, bi, fits)
    ensures At(q, p', trace', bi + 1, fits)
  {
    Entered(q, p, trace, bi, fits);
    p', trace' := p, trace;
    Knows(q, p, trace, bi, 0, fits);
    hide Within, At;
    for oi := 0 to |p.tail[bi]|
      invariant Within(q, p', trace', bi, oi, fits)
    {
      p', trace' := VisitOp(q, p', trace', bi, oi, fits);
    }
    Left(q, p', trace', bi, fits);
  }

  /** The source's outer loop: every row replays as before, and nothing is left to fold. */
  method RewriteTail(q: Batches, fits: Op -> bool)
    returns (tail: Batches, gained: seq<bool>, folded: nat, ghost trace: seq<Batches>)
    ensures Rewritten(q, tail, gained, folded, trace, fits) && Collapsed(trace, gained, fits)
    ensures |tail| == |gained| == |q| && Exhausted(tail, gained, |q|, fits)
    ensures forall row, key :: Fold(row, tail, key) == Fold(row, q, key)
  {
    var p := Pass(q, seq(|q|, _ => false), 0, map[], map[]);
    trace := [q];
    for bi := 0 to |q|
      invariant At(q, p, trace, bi, fits)
    {
      p, trace := VisitBatch(q, p, trace, bi, fits);
    }
    tail, gained, folded := p.tail, p.gained, p.folded;
    forall row, key ensures Fold(row, tail, key) == Fold(row, q, key) {
      RewritingKeepsFold(trace, fits, row, key);
    }
  }

  lemma {:induction false} NextBatch(tail: Batches, last: map<Key, Slot>, gating: map<string, (nat, nat)>, bi: nat)
    requires bi < |tail| && Good(tail, last, gating, bi, |tail[bi]|)
    ensures Good(tail, last, gating, bi + 1, 0)
  {
    forall x: nat, y: nat | x < |tail| && y < |tail[x]|
      ensures Done(x, y, bi + 1, 0) <==> Done(x, y, bi, |tail[bi]|)
    {
    }
    forall id | id in gating ensures GateAt(tail, gating[id], id, bi + 1, 0) {
      assert GateAt(tail, gating[id], id, bi, |tail[bi]|);
    }
  }
}
