/** Replaying writes a row already took: which batches may be seen again, over which rows
(crates/doc/src/registry.rs:181-265; edge/src/registry-room.ts:297-304). */
module WriteReplay {
  import opened Wrappers
  import opened Seqs
  import opened Hlc
  import opened RegistryCore
  import opened OpRewriting
  import opened MergeLaws
  import opened Queue
  import opened PendingQueue

  // ── the writes ────────────────────────────────────────────────────────────

  /** Writes to the row of which none, seen again behind later ones, would land again. */
  ghost predicate Disciplined(log: seq<Op>, key: Key) {
    && (forall i :: 0 <= i < |log| ==> log[i].key == key)
    && (forall i, j :: 0 <= i < j < |log| ==> Follows(log[i], log[j]))
  }

  predicate Follows(a: Op, b: Op) {
    ReplaySafe(a, b)
  }

  /** A client that writes under its own rising clock, each time one clock for the whole op, and
  whose upserts write every field of the row. */
  ghost predicate WholeRows(log: seq<Op>, key: Key, schema: set<string>) {
    && (forall i :: 0 <= i < |log| ==> log[i].key == key && SingleClock(log[i]) && Writes(log[i]).Keys <= schema)
    && (forall i :: 0 <= i < |log| && log[i].op == Upsert ==> Writes(log[i]).Keys == schema)
    && (forall i, j {:trigger Before(log[i], log[j])} :: 0 <= i < j < |log| ==> Before(log[i], log[j]))
  }

  predicate Before(a: Op, b: Op) {
    a.hlc < b.hlc
  }

  /** Such a client is disciplined. */
  lemma {:induction false} WholeRowsDisciplined(log: seq<Op>, key: Key, schema: set<string>)
    requires WholeRows(log, key, schema)
    ensures Disciplined(log, key)
  {
    forall i, j | 0 <= i < j < |log| ensures Follows(log[i], log[j]) {
      assert Before(log[i], log[j]);
    }
  }

  function OnKey(ops: seq<Op>, key: Key): seq<Op>
    decreases |ops|
  {
    if ops == [] then [] else (if ops[0].key == key then [ops[0]] else []) + OnKey(ops[1..], key)
  }

  predicate Below(idx: seq<nat>, n: nat) {
    forall i :: 0 <= i < |idx| ==> idx[i] < n
  }

  function Pick(log: seq<Op>, idx: seq<nat>): (ops: seq<Op>)
    requires Below(idx, |log|)
    ensures |ops| == |idx|
  {
    seq(|idx|, i requires 0 <= i < |idx| => log[idx[i]])
  }

  /** On the row, these ops do what those writes do. */
  ghost predicate Acts(ops: seq<Op>, log: seq<Op>, idx: seq<nat>, key: Key) {
    && Below(idx, |log|)
    && (forall row :: FoldOps(row, ops, key) == FoldOps(row, Pick(log, idx), key))
    && (!Mentions(ops, key) ==> idx == [])
  }

  // ── covering ──────────────────────────────────────────────────────────────

  function Reach(done: nat, idx: seq<nat>): nat
    decreases |idx|
  {
    if idx == [] then done else Reach(if idx[0] >= done then idx[0] + 1 else done, idx[1..])
  }

  /** Replayed from `done`, no write comes before the one it follows. */
  predicate Covered(done: nat, idx: seq<nat>)
    decreases |idx|
  {
    idx == [] || (idx[0] <= done && Covered(Reach(done, [idx[0]]), idx[1..]))
  }

  lemma {:induction false} ReachOne(done: nat, x: nat)
    ensures Reach(done, [x]) == if x >= done then x + 1 else done
  {
    assert [x][1..] == [];
  }

  lemma {:induction false} CoveredConcat(done: nat, x: seq<nat>, y: seq<nat>)
    ensures Reach(done, x + y) == Reach(Reach(done, x), y)
    ensures Covered(done, x + y) <==> Covered(done, x) && Covered(Reach(done, x), y)
    decreases |x|
  {
    if x == [] {
      assert x + y == y;
    } else {
      assert (x + y)[1..] == x[1..] + y;
      ReachOne(done, x[0]);
      CoveredConcat(Reach(done, [x[0]]), x[1..], y);
    }
  }

  lemma {:induction false} ReachMax(done: nat, more: nat, idx: seq<nat>)
    requires done <= more
    ensures Reach(more, idx) == if Reach(done, idx) > more then Reach(done, idx) else more
    ensures Reach(done, idx) >= done
    ensures Covered(done, idx) ==> Covered(more, idx)
    decreases |idx|
  {
    if idx != [] {
      ReachOne(done, idx[0]);
      ReachOne(more, idx[0]);
      ReachMax(Reach(done, [idx[0]]), Reach(more, [idx[0]]), idx[1..]);
    }
  }

  lemma {:induction false} ReachBelow(done: nat, idx: seq<nat>, n: nat)
    requires Below(idx, n) && done <= n
    ensures done <= Reach(done, idx) <= n && Below(idx, Reach(done, idx))
    decreases |idx|
  {
    if idx != [] {
      var next := Reach(done, [idx[0]]);
      ReachOne(done, idx[0]);
      assert Below(idx[1..], n);
      ReachBelow(next, idx[1..], n);
      forall i | 0 <= i < |idx| ensures idx[i] < Reach(done, idx) {
        if i > 0 {
          assert idx[i] == idx[1..][i - 1];
        }
      }
    }
  }

  lemma {:induction false} BelowIsDone(done: nat, idx: seq<nat>)
    requires Below(idx, done)
    ensures Reach(done, idx) == done && Covered(done, idx)
    decreases |idx|
  {
    if idx != [] {
      ReachOne(done, idx[0]);
      BelowIsDone(done, idx[1..]);
    }
  }

  function Range(lo: nat, hi: nat): (r: seq<nat>)
    requires lo <= hi
    ensures |r| == hi - lo && forall i :: 0 <= i < |r| ==> r[i] == lo + i
    decreases hi - lo
  {
    if lo == hi then [] else [lo] + Range(lo + 1, hi)
  }

  lemma {:induction false} RangeCovered(lo: nat, hi: nat)
    requires lo <= hi
    ensures Covered(lo, Range(lo, hi)) && Reach(lo, Range(lo, hi)) == hi
    decreases hi - lo
  {
    if lo < hi {
      ReachOne(lo, lo);
      RangeCovered(lo + 1, hi);
    }
  }

  // ── replaying writes already there ────────────────────────────────────────

  /** A row that took the first `n` writes holds each of them for good. */
  lemma {:induction false} PrefixSettles(row: Option<Row>, log: seq<Op>, n: nat, x: nat, key: Key)
    requires Disciplined(log, key) && x < n <= |log|
    ensures Settled(FoldOps(row, log[..n], key), log[x])
    decreases n
  {
    var before := FoldOps(row, log[..n - 1], key);
    assert log[..n] == log[..n - 1] + [log[n - 1]];
    FoldOpsConcat(row, log[..n - 1], [log[n - 1]], key);
    FoldSingle(before, log[n - 1], key);
    if x == n - 1 {
      ApplyTwice(before, log[x]);
      SettledIsNoOp(ApplyOp(before, log[x]).row, log[x]);
    } else {
      PrefixSettles(row, log, n - 1, x, key);
      assert Follows(log[x], log[n - 1]);
      SettledSurvives(before, log[x], log[n - 1]);
    }
  }

  /** However many ops of whichever writers came in between, older or newer, re-pushing `a` is idle
  if each is replay-safe after it. */
  lemma {:induction false} ReplayBehind(row: Option<Row>, a: Op, between: seq<Op>)
    requires forall i :: 0 <= i < |between| && between[i].key == a.key ==> ReplaySafe(a, between[i])
    ensures var done := FoldOps(ApplyOp(row, a).row, between, a.key);
      Settled(done, a) && ApplyOp(done, a) == Applied(done, false)
    decreases |between|
  {
    if between == [] {
      ApplyTwice(row, a);
      SettledIsNoOp(ApplyOp(row, a).row, a);
    } else {
      var n := |between| - 1;
      var last, before := between[n], FoldOps(ApplyOp(row, a).row, between[..n], a.key);
      ReplayBehind(row, a, between[..n]);
      assert between == between[..n] + [last];
      FoldOpsConcat(ApplyOp(row, a).row, between[..n], [last], a.key);
      FoldSingle(before, last, a.key);
      if last.key == a.key {
        SettledSurvives(before, a, last);
        SettledIsNoOp(ApplyOp(before, last).row, a);
      }
    }
  }

  // ── one batch, seen twice ─────────────────────────────────────────────────

  /** No op of the batch lands again behind a later one. */
  predicate SafeBatch(ops: seq<Op>) {
    forall i, j {:trigger Later(ops[i], ops[j])} :: 0 <= i < j < |ops| ==> Later(ops[i], ops[j])
  }

  predicate Later(a: Op, b: Op) {
    a.key == b.key ==> ReplaySafe(a, b)
  }

  /** A row holds every op of a safe batch it took. */
  lemma {:induction false} BatchSettles(row: Option<Row>, ops: seq<Op>, key: Key, i: nat)
    requires SafeBatch(ops) && i < |ops| && ops[i].key == key
    ensures Settled(FoldOps(row, ops, key), ops[i])
  {
    var before, rest := FoldOps(row, ops[..i], key), ops[i + 1..];
    assert ops == ops[..i] + ([ops[i]] + rest);
    FoldOpsConcat(row, ops[..i], [ops[i]] + rest, key);
    FoldOpsConcat(before, [ops[i]], rest, key);
    FoldSingle(before, ops[i], key);
    forall j | 0 <= j < |rest| && rest[j].key == key ensures ReplaySafe(ops[i], rest[j]) {
      assert Later(ops[i], ops[i + 1 + j]);
    }
    ReplayBehind(before, ops[i], rest);
  }

  lemma {:induction false} SettledFold(row: Option<Row>, ops: seq<Op>, key: Key)
    requires forall i :: 0 <= i < |ops| && ops[i].key == key ==> Settled(row, ops[i])
    ensures FoldOps(row, ops, key) == row
    decreases |ops|
  {
    if ops != [] {
      SettledIsNoOp(row, ops[0]);
      SettledFold(row, ops[1..], key);
    }
  }

  /** Seeing a safe batch again changes nothing. */
  lemma {:induction false} SafeTwice(row: Option<Row>, ops: seq<Op>, key: Key)
    requires SafeBatch(ops)
    ensures FoldOps(FoldOps(row, ops, key), ops, key) == FoldOps(row, ops, key)
  {
    forall i | 0 <= i < |ops| && ops[i].key == key ensures Settled(FoldOps(row, ops, key), ops[i]) {
      BatchSettles(row, ops, key, i);
    }
    SettledFold(FoldOps(row, ops, key), ops, key);
  }

  /** Replaying covered writes over a prefix extends the prefix, each write counted once. */
  lemma {:induction false} Replay(row: Option<Row>, log: seq<Op>, done: nat, idx: seq<nat>, key: Key)
    requires Disciplined(log, key) && done <= |log| && Below(idx, |log|) && Covered(done, idx)
    ensures Reach(done, idx) <= |log|
    ensures FoldOps(FoldOps(row, log[..done], key), Pick(log, idx), key) == FoldOps(row, log[..Reach(done, idx)], key)
    decreases |idx|
  {
    if idx == [] {
      assert Pick(log, idx) == [];
    } else {
      var x, rest := idx[0], idx[1..];
      var now := FoldOps(row, log[..done], key);
      var next := Reach(done, [x]);
      ReachOne(done, x);
      assert Pick(log, idx)[0] == log[x] && Pick(log, idx)[1..] == Pick(log, rest);
      if x < done {
        PrefixSettles(row, log, done, x, key);
        SettledIsNoOp(now, log[x]);
      } else {
        assert log[..next] == log[..done] + [log[x]];
        FoldOpsConcat(row, log[..done], [log[x]], key);
        FoldSingle(now, log[x], key);
      }
      Replay(row, log, next, rest, key);
    }
  }

  // ── what batches stand for ────────────────────────────────────────────────

  lemma {:induction false} OnKeyFold(row: Option<Row>, ops: seq<Op>, key: Key)
    ensures FoldOps(row, ops, key) == FoldOps(row, OnKey(ops, key), key)
    ensures !Mentions(ops, key) ==> OnKey(ops, key) == []
    decreases |ops|
  {
    if ops != [] {
      var rest := ops[1..];
      var next := if ops[0].key == key then ApplyOp(row, ops[0]).row else row;
      OnKeyFold(next, rest, key);
      if ops[0].key == key {
        assert OnKey(ops, key)[0] == ops[0] && OnKey(ops, key)[1..] == OnKey(rest, key);
      } else {
        assert OnKey(ops, key) == OnKey(rest, key);
      }
      if !Mentions(ops, key) {
        assert forall i :: 0 <= i < |rest| ==> rest[i] == ops[i + 1];
        assert ops[0].key != key;
      }
    }
  }

  lemma {:induction false} OnKeyConcat(x: seq<Op>, y: seq<Op>, key: Key)
    ensures OnKey(x + y, key) == OnKey(x, key) + OnKey(y, key)
    decreases |x|
  {
    if x == [] {
      assert x + y == y;
    } else {
      assert (x + y)[0] == x[0] && (x + y)[1..] == x[1..] + y;
      OnKeyConcat(x[1..], y, key);
    }
  }

  /** A freshly queued batch stands for the writes it brings. */
  lemma {:induction false} FreshActs(ops: seq<Op>, log: seq<Op>, log': seq<Op>, key: Key)
    requires log + OnKey(ops, key) <= log'
    ensures Acts(ops, log', Range(|log|, |log| + |OnKey(ops, key)|), key)
  {
    var idx := Range(|log|, |log| + |OnKey(ops, key)|);
    assert Pick(log', idx) == OnKey(ops, key);
    forall row ensures FoldOps(row, ops, key) == FoldOps(row, Pick(log', idx), key) {
      OnKeyFold(row, ops, key);
    }
    OnKeyFold(None, ops, key);
  }

  lemma {:induction false} ActsGrows(ops: seq<Op>, log: seq<Op>, log': seq<Op>, idx: seq<nat>, key: Key)
    requires Acts(ops, log, idx, key) && log <= log'
    ensures Acts(ops, log', idx, key)
  {
    assert Pick(log', idx) == Pick(log, idx);
  }

  /** Two ops folded into one stand for the writes of both. */
  lemma {:induction false} MergedActs(a: Op, b: Op, fits: Op -> bool, log: seq<Op>, x: seq<nat>, y: seq<nat>, key: Key)
    requires CoalesceOps(a, b, fits).Some? && Acts([a], log, x, key) && Acts([b], log, y, key)
    ensures Acts([CoalesceOps(a, b, fits).value], log, x + y, key)
  {
    var m := CoalesceOps(a, b, fits).value;
    PickConcat(log, x, y);
    MentionsOne(a, key);
    MentionsOne(b, key);
    MentionsOne(m, key);
    forall row ensures FoldOps(row, [m], key) == FoldOps(row, Pick(log, x + y), key) {
      FoldOpsConcat(row, Pick(log, x), Pick(log, y), key);
      assert FoldOps(row, [a], key) == FoldOps(row, Pick(log, x), key);
      var mid := FoldOps(row, [a], key);
      assert FoldOps(mid, [b], key) == FoldOps(mid, Pick(log, y), key);
      FoldSingle(row, a, key);
      FoldSingle(mid, b, key);
      FoldSingle(row, m, key);
      if a.key == key {
        CoalesceExact(row, a, b, fits);
      }
    }
  }

  lemma {:induction false} MentionsOne(op: Op, key: Key)
    ensures Mentions([op], key) <==> op.key == key
  {
    assert [op][0] == op;
  }

  /** The writes a list of batches stands for, in order. */
  function Tags(batches: seq<PendingBatch>, tag: map<BatchId, seq<nat>>): seq<nat>
    decreases |batches|
  {
    if batches == [] then []
    else (if batches[0].batch in tag then tag[batches[0].batch] else []) + Tags(batches[1..], tag)
  }

  lemma {:induction false} TagsConcat(x: seq<PendingBatch>, y: seq<PendingBatch>, tag: map<BatchId, seq<nat>>)
    ensures Tags(x + y, tag) == Tags(x, tag) + Tags(y, tag)
    decreases |x|
  {
    if x == [] {
      assert x + y == y;
    } else {
      assert (x + y)[0] == x[0] && (x + y)[1..] == x[1..] + y;
      TagsConcat(x[1..], y, tag);
    }
  }

  lemma {:induction false} TagsOne(b: PendingBatch, tag: map<BatchId, seq<nat>>)
    requires b.batch in tag
    ensures Tags([b], tag) == tag[b.batch]
  {
    assert [b][1..] == [];
  }

  /** Marks in flight do not matter, nor do ids the list does not use. */
  lemma {:induction false} TagsSame(x: seq<PendingBatch>, y: seq<PendingBatch>, tag: map<BatchId, seq<nat>>, tag': map<BatchId, seq<nat>>)
    requires |x| == |y| && forall i :: 0 <= i < |x| ==> x[i].batch == y[i].batch
    requires forall i :: 0 <= i < |x| ==> x[i].batch in tag && x[i].batch in tag' && tag'[x[i].batch] == tag[x[i].batch]
    ensures Tags(y, tag') == Tags(x, tag)
    decreases |x|
  {
    if x != [] {
      TagsSame(x[1..], y[1..], tag, tag');
    }
  }

  /** Each batch stands for its tagged writes. */
  ghost predicate Tagged(batches: seq<PendingBatch>, tag: map<BatchId, seq<nat>>, log: seq<Op>, key: Key) {
    forall i {:trigger batches[i]} :: 0 <= i < |batches| ==> batches[i].batch in tag && Acts(batches[i].ops, log, tag[batches[i].batch], key)
  }

  lemma {:induction false} TaggedFold(row: Option<Row>, batches: seq<PendingBatch>, tag: map<BatchId, seq<nat>>, log: seq<Op>, key: Key)
    requires Tagged(batches, tag, log, key)
    ensures Below(Tags(batches, tag), |log|)
    ensures Fold(row, OpsOf(batches), key) == FoldOps(row, Pick(log, Tags(batches, tag)), key)
    decreases |batches|
  {
    if batches == [] {
      assert Pick(log, []) == [];
    } else {
      var b, rest := batches[0], batches[1..];
      var x, y := tag[b.batch], Tags(rest, tag);
      var next := FoldOps(row, b.ops, key);
      assert Acts(b.ops, log, x, key);
      TaggedFold(next, rest, tag, log, key);
      FoldHead(row, batches, key);
      PickConcat(log, x, y);
      hide OpsOf, Fold, FoldOps, Tagged, Acts;
      FoldOpsConcat(row, Pick(log, x), Pick(log, y), key);
    }
  }

  lemma {:induction false} PickConcat(log: seq<Op>, x: seq<nat>, y: seq<nat>)
    requires Below(x, |log|) && Below(y, |log|)
    ensures Below(x + y, |log|) && Pick(log, x + y) == Pick(log, x) + Pick(log, y)
  {
  }

  lemma {:induction false} FoldHead(row: Option<Row>, batches: seq<PendingBatch>, key: Key)
    requires batches != []
    ensures Fold(row, OpsOf(batches), key) == Fold(FoldOps(row, batches[0].ops, key), OpsOf(batches[1..]), key)
  {
    var b, rest := batches[0], batches[1..];
    assert batches == [b] + rest;
    OpsOfConcat([b], rest);
    OpsOfOne(b);
    FoldConcat(row, [b.ops], OpsOf(rest), key);
    FoldOne(row, b.ops, key);
  }

  // ── what a rewriting does to the writes a queue stands for ────────────────

  /** Batch by batch, the writes each stands for. */
  ghost predicate TaggedQueue(q: Batches, idx: seq<seq<nat>>, log: seq<Op>, key: Key) {
    |idx| == |q| && forall i {:trigger q[i]} {:trigger idx[i]} :: 0 <= i < |q| ==> Acts(q[i], log, idx[i], key)
  }

  function Flat(idx: seq<seq<nat>>): seq<nat>
    decreases |idx|
  {
    if idx == [] then [] else Flat(idx[..|idx| - 1]) + idx[|idx| - 1]
  }

  lemma {:induction false} FlatConcat(x: seq<seq<nat>>, y: seq<seq<nat>>)
    ensures Flat(x + y) == Flat(x) + Flat(y)
    decreases |y|
  {
    if y == [] {
      assert x + y == x;
    } else {
      assert (x + y)[..|x + y| - 1] == x + y[..|y| - 1];
      FlatConcat(x, y[..|y| - 1]);
    }
  }

  lemma {:induction false} FlatOne(x: seq<nat>)
    ensures Flat([x]) == x
  {
    assert [x][..0] == [];
  }

  lemma {:induction false} FlatEmpty(idx: seq<seq<nat>>)
    requires forall i :: 0 <= i < |idx| ==> idx[i] == []
    ensures Flat(idx) == []
    decreases |idx|
  {
    if idx != [] {
      FlatEmpty(idx[..|idx| - 1]);
    }
  }

  lemma {:induction false} FlatCut(pre: seq<seq<nat>>, x: seq<nat>, mid: seq<seq<nat>>, y: seq<nat>, post: seq<seq<nat>>)
    ensures Flat(pre + [x] + mid + [y] + post) == Flat(pre) + x + Flat(mid) + y + Flat(post)
  {
    FlatConcat(pre + [x] + mid + [y], post);
    FlatConcat(pre + [x] + mid, [y]);
    FlatConcat(pre + [x], mid);
    FlatConcat(pre, [x]);
    FlatOne(x);
    FlatOne(y);
  }

  /** Moving batch `i`'s writes to `j` changes no order when nothing lies between. */
  lemma {:induction false} FlatMove(idx: seq<seq<nat>>, i: nat, j: nat)
    requires i < j < |idx| && (idx[i] == [] || forall x :: i < x < j ==> idx[x] == [])
    ensures Flat(idx[i := []][j := idx[i] + idx[j]]) == Flat(idx)
  {
    var pre, x, mid, y, post := idx[..i], idx[i], idx[i + 1..j], idx[j], idx[j + 1..];
    FlatCut(pre, x, mid, y, post);
    FlatCut(pre, [], mid, x + y, post);
    if x != [] {
      FlatEmpty(mid);
    }
    hide Flat;
    CutAtTwo(idx, i, j, [], x + y);
    MoveOver(Flat(pre), x, Flat(mid), y, Flat(post));
  }

  lemma {:induction false} MoveOver(p: seq<nat>, x: seq<nat>, c: seq<nat>, y: seq<nat>, q: seq<nat>)
    requires x == [] || c == []
    ensures p + [] + c + (x + y) + q == p + x + c + y + q
  {
  }

  lemma {:induction false} StepTags(q: Batches, q': Batches, j: nat, fits: Op -> bool, idx: seq<seq<nat>>, log: seq<Op>, key: Key)
    returns (idx': seq<seq<nat>>)
    requires TaggedQueue(q, idx, log, key) && StepAt(q, q', j, fits)
    ensures j < |q| == |q'| && q[j] != [] && TaggedQueue(q', idx', log, key) && Flat(idx') == Flat(idx)
    ensures forall p :: 0 <= p < |idx| && p != j ==> (idx'[p] == idx[p] && q'[p] == q[p]) || q'[p] == []
  {
    var i: nat :| Foldable(q, i, j, fits) && MayMove(q, i, j) && q' == Folded(q, i, j, fits);
    hide MayMove;
    var a, b := q[i][0], q[j][0];
    idx' := idx[i := []][j := idx[i] + idx[j]];
    assert q[i] == [a] && q[j] == [b];
    assert Acts([a], log, idx[i], key) && Acts([b], log, idx[j], key);
    MergedActs(a, b, fits, log, idx[i], idx[j], key);
    EmptyActs(log, key);
    if a.key == key {
      forall x | i < x < j ensures idx[x] == [] {
        assert !Mentions(q[i + 1..j][x - (i + 1)], key) && q[i + 1..j][x - (i + 1)] == q[x];
        assert Acts(q[x], log, idx[x], key);
      }
    } else {
      MentionsOne(a, key);
    }
    hide Acts, CoalesceOps;
    FlatMove(idx, i, j);
    forall p | 0 <= p < |q'| ensures Acts(q'[p], log, idx'[p], key) {
      assert p != i && p != j ==> q'[p] == q[p] && idx'[p] == idx[p];
    }
  }

  lemma {:induction false} EmptyActs(log: seq<Op>, key: Key)
    ensures Acts([], log, [], key)
  {
    assert Pick(log, []) == [];
  }

  /** Along a whole rewriting: the same writes in the same order, and a batch that gained nothing
  stands for what it stood for, or is empty. */
  lemma {:induction false} TraceTags(trace: seq<Batches>, gained: seq<bool>, fits: Op -> bool, idx: seq<seq<nat>>, log: seq<Op>, key: Key)
    returns (idx': seq<seq<nat>>)
    requires FoldedInto(trace, gained, fits) && TaggedQueue(trace[0], idx, log, key)
    ensures var last := trace[|trace| - 1];
      && |idx'| == |last| == |trace[0]| && TaggedQueue(last, idx', log, key) && Flat(idx') == Flat(idx)
      && forall p :: 0 <= p < |last| && !(p < |gained| && gained[p]) ==> idx'[p] == idx[p] || last[p] == []
    decreases |trace|
  {
    var n := |trace|;
    TaggedLength(trace[0], idx, log, key);
    if n == 1 {
      idx' := idx;
    } else {
      var j: nat :| j < |gained| && gained[j] && StepAt(trace[n - 2], trace[n - 1], j, fits);
      var front := trace[..n - 1];
      hide FoldedInto, StepAt, TaggedQueue, Flat;
      assert front[|front| - 1] == trace[n - 2] && front[0] == trace[0];
      var mid := TraceTags(front, gained, fits, idx, log, key);
      idx' := OneMore(trace[n - 2], trace[n - 1], j, gained, fits, idx, mid, log, key);
    }
  }

  lemma {:induction false} OneMore(q: Batches, q': Batches, j: nat, gained: seq<bool>, fits: Op -> bool,
      idx: seq<seq<nat>>, mid: seq<seq<nat>>, log: seq<Op>, key: Key)
    returns (idx': seq<seq<nat>>)
    requires j < |gained| && gained[j] && StepAt(q, q', j, fits) && TaggedQueue(q, mid, log, key)
    requires |idx| == |q| && |mid| == |q| && forall p :: 0 <= p < |q| && !(p < |gained| && gained[p]) ==> mid[p] == idx[p] || q[p] == []
    ensures |q'| == |q| && TaggedQueue(q', idx', log, key) && Flat(idx') == Flat(mid)
    ensures |idx'| == |q'| && forall p :: 0 <= p < |q'| && !(p < |gained| && gained[p]) ==> idx'[p] == idx[p] || q'[p] == []
  {
    idx' := StepTags(q, q', j, fits, mid, log, key);
    TaggedLength(q', idx', log, key);
    hide StepAt, TaggedQueue, Flat;
  }

  lemma {:induction false} TaggedLength(q: Batches, idx: seq<seq<nat>>, log: seq<Op>, key: Key)
    requires TaggedQueue(q, idx, log, key)
    ensures |idx| == |q|
  {
  }
}
