/** The client's queue of unacked batches as a value: ids, in-flight marks, what each operation of
the replica leaves of it (crates/doc/src/registry.rs:420-470, 740-952). */
module PendingQueue {
  import opened Wrappers
  import opened Seqs
  import opened RegistryCore
  import opened Queue

  /** A batch id, `b-{hlc}`, by the clock tick it was minted from; `WireIdInjective` says the strings
  tell ticks apart. */
  datatype BatchId = BatchId(ms: nat, counter: nat)

  datatype PendingBatch = PendingBatch(batch: BatchId, ops: seq<Op>, inFlight: bool)

  const MAX_OPS_PER_BATCH := 400

  function OpsOf(pending: seq<PendingBatch>): Batches
    ensures |OpsOf(pending)| == |pending|
    ensures forall i :: 0 <= i < |pending| ==> OpsOf(pending)[i] == pending[i].ops
    decreases |pending|
  {
    if pending == [] then [] else OpsOf(pending[..|pending| - 1]) + [pending[|pending| - 1].ops]
  }

  /** The queue in batches of at most 400 ops. */
  function Chunks(ops: seq<Op>): Batches
    decreases |ops|
  {
    if ops == [] then []
    else if |ops| <= MAX_OPS_PER_BATCH then [ops]
    else [ops[..MAX_OPS_PER_BATCH]] + Chunks(ops[MAX_OPS_PER_BATCH..])
  }

  function Joined(q: Batches): seq<Op>
    decreases |q|
  {
    if q == [] then [] else q[0] + Joined(q[1..])
  }

  /** The batches are the ops cut in order, every one full but the last. */
  lemma {:induction false} ChunksWhole(ops: seq<Op>)
    ensures var q := Chunks(ops);
      && Joined(q) == ops && (ops != [] ==> q != [])
      && forall i :: 0 <= i < |q| ==> 1 <= |q[i]| <= 400 && (i < |q| - 1 ==> |q[i]| == 400)
    decreases |ops|
  {
    if |ops| > MAX_OPS_PER_BATCH {
      var x, y := ops[..MAX_OPS_PER_BATCH], ops[MAX_OPS_PER_BATCH..];
      ChunksWhole(y);
      assert ops == x + y && Chunks(ops)[0] == x && Chunks(ops)[1..] == Chunks(y);
    } else if ops != [] {
      assert [ops][1..] == [] && ops + [] == ops;
    }
  }

  lemma {:induction false} ChunksFold(row: Option<Row>, ops: seq<Op>, key: Key)
    ensures Fold(row, Chunks(ops), key) == FoldOps(row, ops, key)
    decreases |ops|
  {
    if |ops| > MAX_OPS_PER_BATCH {
      var x, y := ops[..MAX_OPS_PER_BATCH], ops[MAX_OPS_PER_BATCH..];
      assert ops == x + y && Chunks(ops)[0] == x && Chunks(ops)[1..] == Chunks(y);
      FoldOpsConcat(row, x, y, key);
      ChunksFold(FoldOps(row, x, key), y, key);
    } else if ops != [] {
      FoldOne(row, ops, key);
    }
  }

  lemma {:induction false} OpsOfConcat(x: seq<PendingBatch>, y: seq<PendingBatch>)
    ensures OpsOf(x + y) == OpsOf(x) + OpsOf(y)
  {
  }

  /** The first batch that is not in flight, counted from the back as the source does. */
  function UnsentStart(pending: seq<PendingBatch>): (n: nat)
    ensures n <= |pending|
    ensures n > 0 ==> pending[n - 1].inFlight
    ensures forall i :: n <= i < |pending| ==> !pending[i].inFlight
    decreases |pending|
  {
    if pending == [] || pending[|pending| - 1].inFlight then |pending|
    else UnsentStart(pending[..|pending| - 1])
  }

  /** The queue without the batch of that id. */
  function Without(pending: seq<PendingBatch>, batch: BatchId): seq<PendingBatch>
    decreases |pending|
  {
    if pending == [] then []
    else (if pending[0].batch == batch then [] else [pending[0]]) + Without(pending[1..], batch)
  }

  // ── what the queue keeps ──────────────────────────────────────────────────

  /** An issued id, one to 400 ops, and the id naming nothing but what was pushed under it. */
  ghost predicate Own(b: PendingBatch, issued: set<BatchId>, pushed: map<BatchId, seq<Op>>) {
    && b.batch in issued && 1 <= |b.ops| <= MAX_OPS_PER_BATCH
    && (b.inFlight ==> b.batch in pushed)
    && (b.batch in pushed ==> pushed[b.batch] == b.ops)
  }

  /** Distinct ids, and no in-flight batch behind one that is not. */
  predicate Ahead(a: PendingBatch, b: PendingBatch) {
    a.batch != b.batch && (b.inFlight ==> a.inFlight)
  }

  ghost predicate QueueValid(pending: seq<PendingBatch>, issued: set<BatchId>, pushed: map<BatchId, seq<Op>>) {
    && (forall i {:trigger pending[i]} :: 0 <= i < |pending| ==> Own(pending[i], issued, pushed))
    && (forall i, j {:trigger Ahead(pending[i], pending[j])} :: 0 <= i < j < |pending| ==> Ahead(pending[i], pending[j]))
  }

  lemma {:induction false} SplitValid(x: seq<PendingBatch>, y: seq<PendingBatch>, issued: set<BatchId>, pushed: map<BatchId, seq<Op>>)
    requires QueueValid(x + y, issued, pushed)
    ensures QueueValid(x, issued, pushed) && QueueValid(y, issued, pushed)
    ensures forall i, j {:trigger Ahead(x[i], y[j])} :: 0 <= i < |x| && 0 <= j < |y| ==> Ahead(x[i], y[j])
  {
    var z := x + y;
    hide Own, Ahead;
    forall i | 0 <= i < |x| ensures Own(x[i], issued, pushed) {
      assert z[i] == x[i];
    }
    forall i, j | 0 <= i < j < |x| ensures Ahead(x[i], x[j]) {
      assert Ahead(z[i], z[j]);
    }
    forall i | 0 <= i < |y| ensures Own(y[i], issued, pushed) {
      assert z[|x| + i] == y[i];
    }
    forall i, j | 0 <= i < j < |y| ensures Ahead(y[i], y[j]) {
      assert Ahead(z[|x| + i], z[|x| + j]);
    }
    forall i, j | 0 <= i < |x| && 0 <= j < |y| ensures Ahead(x[i], y[j]) {
      assert Ahead(z[i], z[|x| + j]);
    }
  }

  lemma {:induction false} JoinValid(x: seq<PendingBatch>, y: seq<PendingBatch>, issued: set<BatchId>, pushed: map<BatchId, seq<Op>>)
    requires QueueValid(x, issued, pushed) && QueueValid(y, issued, pushed)
    requires forall i, j {:trigger Ahead(x[i], y[j])} :: 0 <= i < |x| && 0 <= j < |y| ==> Ahead(x[i], y[j])
    ensures QueueValid(x + y, issued, pushed)
  {
    var z := x + y;
    hide Own, Ahead;
    forall i, j | 0 <= i < j < |z| ensures Ahead(z[i], z[j]) {
      if j < |x| {
        assert Ahead(x[i], x[j]);
      } else if |x| <= i {
        assert Ahead(y[i - |x|], y[j - |x|]);
      } else {
        assert Ahead(x[i], y[j - |x|]);
      }
    }
  }

  lemma {:induction false} GrowValid(pending: seq<PendingBatch>, issued: set<BatchId>, issued': set<BatchId>, pushed: map<BatchId, seq<Op>>)
    requires QueueValid(pending, issued, pushed) && issued <= issued'
    ensures QueueValid(pending, issued', pushed)
  {
  }

  lemma {:induction false} FreshBatchValid(pending: seq<PendingBatch>, b: PendingBatch, issued: set<BatchId>, issued': set<BatchId>, pushed: map<BatchId, seq<Op>>)
    requires QueueValid(pending, issued, pushed) && pushed.Keys <= issued && issued' == issued + {b.batch}
    requires b.batch !in issued && !b.inFlight && 1 <= |b.ops| <= MAX_OPS_PER_BATCH
    ensures QueueValid(pending + [b], issued', pushed)
  {
    GrowValid(pending, issued, issued', pushed);
    JoinValid(pending, [b], issued', pushed);
  }

  // ── acks ──────────────────────────────────────────────────────────────────

  lemma {:induction false} WithoutMembers(pending: seq<PendingBatch>, batch: BatchId)
    ensures |Without(pending, batch)| <= |pending|
    ensures |Without(pending, batch)| != |pending| <==> exists i :: 0 <= i < |pending| && pending[i].batch == batch
    ensures forall b :: b in Without(pending, batch) <==> b in pending && b.batch != batch
    decreases |pending|
  {
    if pending != [] {
      var rest := pending[1..];
      assert pending == [pending[0]] + rest;
      WithoutMembers(rest, batch);
      assert forall i :: 0 <= i < |rest| ==> rest[i] == pending[i + 1];
      assert forall i :: 0 < i < |pending| ==> pending[i] == rest[i - 1];
    }
  }

  /** With distinct ids, one batch at most goes, and the others stay in their order. */
  lemma {:induction false} WithoutCuts(pending: seq<PendingBatch>, batch: BatchId, i: nat)
    requires i < |pending| && pending[i].batch == batch && forall j :: 0 <= j < |pending| && j != i ==> pending[j].batch != batch
    ensures Without(pending, batch) == pending[..i] + pending[i + 1..]
    decreases |pending|
  {
    if i == 0 {
      WithoutNone(pending[1..], batch);
      assert pending[..0] + pending[1..] == pending[1..];
    } else {
      WithoutCuts(pending[1..], batch, i - 1);
      assert [pending[0]] + (pending[1..][..i - 1] + pending[1..][i..]) == pending[..i] + pending[i + 1..];
    }
  }

  lemma {:induction false} WithoutNone(pending: seq<PendingBatch>, batch: BatchId)
    requires forall j :: 0 <= j < |pending| ==> pending[j].batch != batch
    ensures Without(pending, batch) == pending
    decreases |pending|
  {
    if pending != [] {
      WithoutNone(pending[1..], batch);
    }
  }

  lemma {:induction false} WithoutOne(pending: seq<PendingBatch>, batch: BatchId, issued: set<BatchId>, pushed: map<BatchId, seq<Op>>)
    requires QueueValid(pending, issued, pushed)
    ensures Removed(pending, batch, Without(pending, batch))
  {
    if i :| 0 <= i < |pending| && pending[i].batch == batch {
      forall j | 0 <= j < |pending| && j != i ensures pending[j].batch != batch {
        assert if i < j then Ahead(pending[i], pending[j]) else Ahead(pending[j], pending[i]);
      }
      WithoutCuts(pending, batch, i);
    } else {
      WithoutNone(pending, batch);
    }
  }

  /** The batch of that id went, if there was one, and nothing else. */
  ghost predicate Removed(before: seq<PendingBatch>, batch: BatchId, after: seq<PendingBatch>) {
    if exists i :: 0 <= i < |before| && before[i].batch == batch
    then exists i :: 0 <= i < |before| && before[i].batch == batch && after == before[..i] + before[i + 1..]
    else after == before
  }

  lemma {:induction false} WithoutValid(pending: seq<PendingBatch>, batch: BatchId, issued: set<BatchId>, pushed: map<BatchId, seq<Op>>)
    requires QueueValid(pending, issued, pushed)
    ensures QueueValid(Without(pending, batch), issued, pushed)
    decreases |pending|
  {
    if pending != [] {
      var head, rest := pending[..1], pending[1..];
      assert pending == head + rest;
      SplitValid(head, rest, issued, pushed);
      WithoutValid(rest, batch, issued, pushed);
      if pending[0].batch == batch {
        assert Without(pending, batch) == Without(rest, batch);
      } else {
        var left := Without(rest, batch);
        WithoutMembers(rest, batch);
        forall i, j | 0 <= i < |head| && 0 <= j < |left| ensures Ahead(head[i], left[j]) {
          assert left[j] in rest;
          var k :| 0 <= k < |rest| && rest[k] == left[j];
          assert Ahead(head[i], rest[k]);
        }
        JoinValid(head, left, issued, pushed);
        assert Without(pending, batch) == head + left;
      }
    }
  }

  // ── taking batches to push, and losing the connection ─────────────────────

  function Marked(pending: seq<PendingBatch>, on: bool): (out: seq<PendingBatch>)
    ensures |out| == |pending|
    ensures forall i :: 0 <= i < |pending| ==> out[i] == pending[i].(inFlight := on)
  {
    seq(|pending|, i requires 0 <= i < |pending| => pending[i].(inFlight := on))
  }

  /** Each batch is recorded with its ops, and no earlier record changed. */
  ghost predicate Recorded(out: seq<PendingBatch>, pushed: map<BatchId, seq<Op>>, pushed0: map<BatchId, seq<Op>>) {
    && (forall i {:trigger out[i]} :: 0 <= i < |out| ==> out[i].batch in pushed && pushed[out[i].batch] == out[i].ops)
    && (forall id :: id in pushed0 ==> id in pushed && pushed[id] == pushed0[id])
  }

  /** The record of what was pushed, once all of `pending` has been. */
  function PushedAfter(pending: seq<PendingBatch>, pushed: map<BatchId, seq<Op>>): map<BatchId, seq<Op>>
    decreases |pending|
  {
    if pending == [] then pushed else PushedAfter(pending[1..], pushed[pending[0].batch := pending[0].ops])
  }

  lemma {:induction false} PushedAfterKeeps(pending: seq<PendingBatch>, pushed: map<BatchId, seq<Op>>, issued: set<BatchId>)
    requires pushed.Keys <= issued && QueueValid(pending, issued, pushed)
    ensures var after := PushedAfter(pending, pushed);
      after.Keys <= issued && Recorded(pending, after, pushed)
    decreases |pending|
  {
    if pending != [] {
      var b := pending[0];
      var head, rest, next := pending[..1], pending[1..], pushed[b.batch := b.ops];
      assert pending == head + rest;
      SplitValid(head, rest, issued, pushed);
      assert Own(b, issued, pushed);
      forall i | 0 <= i < |rest| ensures Own(rest[i], issued, next) {
        assert Own(rest[i], issued, pushed) && Ahead(head[0], rest[i]);
      }
      PushedAfterKeeps(rest, next, issued);
      var after := PushedAfter(rest, next);
      assert b.batch in next;
      forall i | 0 <= i < |pending| ensures pending[i].batch in after && after[pending[i].batch] == pending[i].ops {
        if i > 0 {
          assert pending[i] == rest[i - 1];
        }
      }
    }
  }

  lemma {:induction false} MarkedValid(pending: seq<PendingBatch>, on: bool, issued: set<BatchId>, pushed: map<BatchId, seq<Op>>, pushed': map<BatchId, seq<Op>>)
    requires QueueValid(pending, issued, pushed)
    requires on ==> Recorded(pending, pushed', pushed)
    requires !on ==> pushed' == pushed
    ensures QueueValid(Marked(pending, on), issued, pushed')
  {
    var after := Marked(pending, on);
    forall i, j | 0 <= i < j < |after| ensures Ahead(after[i], after[j]) {
      assert Ahead(pending[i], pending[j]);
    }
    forall i | 0 <= i < |after| ensures Own(after[i], issued, pushed') {
      assert Own(pending[i], issued, pushed);
    }
  }

  lemma {:induction false} FlightPrefix(pending: seq<PendingBatch>, issued: set<BatchId>, pushed: map<BatchId, seq<Op>>)
    requires QueueValid(pending, issued, pushed)
    ensures forall i :: 0 <= i < UnsentStart(pending) ==> pending[i].inFlight
  {
    var n := UnsentStart(pending);
    forall i | 0 <= i < n ensures pending[i].inFlight {
      assert i < n - 1 ==> Ahead(pending[i], pending[n - 1]);
    }
  }

  /** Mark every batch in flight, handing out those that were not yet. */
  method MarkAll(pending: seq<PendingBatch>) returns (out: seq<PendingBatch>, marked: seq<PendingBatch>)
    requires forall i :: 0 <= i < UnsentStart(pending) ==> pending[i].inFlight
    ensures marked == Marked(pending, true) && out == marked[UnsentStart(pending)..]
  {
    ghost var start := UnsentStart(pending);
    marked := pending;
    out := [];
    hide UnsentStart;
    for i := 0 to |pending|
      invariant |marked| == |pending|
      invariant forall j :: 0 <= j < |marked| ==> marked[j] == if j < i then pending[j].(inFlight := true) else pending[j]
      invariant out == if i <= start then [] else marked[start..i]
    {
      if !marked[i].inFlight {
        marked := marked[i := marked[i].(inFlight := true)];
        out := out + [marked[i]];
      }
    }
    assert marked == Marked(pending, true);
    SliceToEnd(marked, start);
  }

  // ── the queue, rewritten ──────────────────────────────────────────────────

  /** `after` is `before` with `added` queued behind it and the unsent part rewritten along
  `trace`; everything up to the last in-flight batch is untouched. */
  ghost predicate Requeued(before: seq<PendingBatch>, added: Batches, after: seq<PendingBatch>, trace: seq<Batches>, fits: Op -> bool) {
    var n := UnsentStart(before);
    && n <= |after| && after[..n] == before[..n]
    && |trace| > 0 && Rewriting(trace, fits)
    && trace[0] == OpsOf(before[n..]) + added && OpsOf(after[n..]) == DropEmpty(trace[|trace| - 1])
  }

  /** Whatever was rewritten, every row replays as if the added batches had just been queued. */
  lemma {:induction false} RequeuedFold(before: seq<PendingBatch>, added: Batches, after: seq<PendingBatch>, trace: seq<Batches>, fits: Op -> bool,
      row: Option<Row>, key: Key)
    requires Requeued(before, added, after, trace, fits)
    ensures Fold(row, OpsOf(after), key) == Fold(Fold(row, OpsOf(before), key), added, key)
  {
    var n := UnsentStart(before);
    hide OpsOf, UnsentStart;
    Rejoin(before, n);
    Rejoin(after, n);
    OpsOfConcat(before[..n], before[n..]);
    OpsOfConcat(after[..n], after[n..]);
    var mid := Fold(row, OpsOf(before[..n]), key);
    FoldConcat(row, OpsOf(before[..n]), OpsOf(before[n..]), key);
    FoldConcat(row, OpsOf(after[..n]), OpsOf(after[n..]), key);
    FoldConcat(mid, OpsOf(before[n..]), added, key);
    DropEmptyKeepsFold(mid, trace[|trace| - 1], key);
    RewritingKeepsFold(trace, fits, mid, key);
  }

  lemma {:induction false} DropEmptyLast(q: Batches, x: seq<Op>)
    ensures DropEmpty(q + [x]) == DropEmpty(q) + (if x == [] then [] else [x])
    decreases |q|
  {
    if q == [] {
      assert q + [x] == [x] && [x][1..] == [];
    } else {
      assert (q + [x])[0] == q[0] && (q + [x])[1..] == q[1..] + [x];
      DropEmptyLast(q[1..], x);
    }
  }

  lemma {:induction false} UnsentStartAppend(pending: seq<PendingBatch>, more: seq<PendingBatch>)
    requires forall i :: 0 <= i < |more| ==> !more[i].inFlight
    ensures UnsentStart(pending + more) == UnsentStart(pending)
    decreases |more|
  {
    if more == [] {
      assert pending + more == pending;
    } else {
      assert (pending + more)[..|pending + more| - 1] == pending + more[..|more| - 1];
      UnsentStartAppend(pending, more[..|more| - 1]);
    }
  }

  lemma {:induction false} ChunkHead(ops: seq<Op>, n: nat)
    requires ops != [] && n == if |ops| > MAX_OPS_PER_BATCH then MAX_OPS_PER_BATCH else |ops|
    ensures Chunks(ops) == [ops[..n]] + Chunks(ops[n..])
  {
    assert |ops| <= MAX_OPS_PER_BATCH ==> ops[..n] == ops && ops[n..] == [];
  }

  /** Queueing behind the unsent tail and then rewriting it is one rewriting of both. */
  lemma {:induction false} QueuedThenCoalesced(before: seq<PendingBatch>, added: seq<PendingBatch>, after: seq<PendingBatch>, trace: seq<Batches>, fits: Op -> bool)
    requires forall i :: 0 <= i < |added| ==> !added[i].inFlight
    requires Requeued(before + added, [], after, trace, fits)
    ensures Requeued(before, OpsOf(added), after, trace, fits)
  {
    hide OpsOf, DropEmpty, Rewriting, UnsentStart;
    UnsentStartAppend(before, added);
    var n := UnsentStart(before);
    CutAppended(before, added, n);
    OpsOfConcat(before[n..], added);
    ConcatEmpty(OpsOf(before[n..] + added));
  }

  lemma {:induction false} RelabelledRequeued(before: seq<PendingBatch>, out: seq<PendingBatch>, trace: seq<Batches>, fits: Op -> bool)
    requires var unsent := before[UnsentStart(before)..];
      |trace| > 0 && Rewriting(trace, fits) && trace[0] == OpsOf(unsent) && OpsOf(out) == DropEmpty(trace[|trace| - 1])
    ensures Requeued(before, [], before[..UnsentStart(before)] + out, trace, fits)
  {
    var n := UnsentStart(before);
    ConcatEmpty(OpsOf(before[n..]));
    hide OpsOf, DropEmpty, Rewriting, UnsentStart;
    assert (before[..n] + out)[..n] == before[..n] && (before[..n] + out)[n..] == out;
  }

  lemma {:induction false} NothingEmpty(pending: seq<PendingBatch>, unsent: seq<PendingBatch>, n: nat)
    requires n <= |pending| && unsent == pending[n..]
    requires forall i :: 0 <= i < |pending| ==> pending[i].ops != []
    ensures DropEmpty(OpsOf(unsent)) == OpsOf(unsent)
  {
    hide OpsOf, DropEmpty;
    NoEmpty(OpsOf(unsent));
  }

  lemma {:induction false} Unrewritten(pending: seq<PendingBatch>, q: Batches, trace: seq<Batches>, fits: Op -> bool)
    requires forall i :: 0 <= i < |pending| ==> pending[i].ops != []
    requires q == OpsOf(pending[UnsentStart(pending)..]) && trace == [q]
    ensures Requeued(pending, [], pending, trace, fits)
  {
    hide OpsOf, DropEmpty, Rewriting, UnsentStart, Requeued;
    var n := UnsentStart(pending);
    var unsent := pending[n..];
    NothingEmpty(pending, unsent, n);
    Alone(trace, fits);
    RelabelledRequeued(pending, unsent, trace, fits);
    Rejoin(pending, n);
  }

  lemma {:induction false} Alone(trace: seq<Batches>, fits: Op -> bool)
    requires |trace| == 1
    ensures Rewriting(trace, fits)
  {
  }

  lemma {:induction false} NoEmpty(q: Batches)
    requires forall i :: 0 <= i < |q| ==> q[i] != []
    ensures DropEmpty(q) == q
    decreases |q|
  {
    if q != [] {
      NoEmpty(q[1..]);
    }
  }

  // ── the rewritten tail as batches again ───────────────────────────────────

  /** `out` is the rewritten tail without its emptied batches: those that gained content under a
  new id, the others untouched. */
  ghost predicate Rebuilt(unsent: seq<PendingBatch>, tail: Batches, gained: seq<bool>, out: seq<PendingBatch>, issued0: set<BatchId>)
    requires |tail| <= |unsent| && |tail| <= |gained|
    decreases |tail|
  {
    if tail == [] then out == []
    else
      var k := |tail| - 1;
      if tail[k] == [] then Rebuilt(unsent, tail[..k], gained, out, issued0)
      else
        && out != [] && RebuiltAt(unsent[k], tail[k], gained[k], out[|out| - 1], issued0)
        && Rebuilt(unsent, tail[..k], gained, out[..|out| - 1], issued0)
  }

  predicate RebuiltAt(was: PendingBatch, ops: seq<Op>, gained: bool, b: PendingBatch, issued0: set<BatchId>) {
    b.ops == ops && !b.inFlight && if gained then b.batch !in issued0 else b == was
  }

  lemma {:induction false} RebuiltStep(unsent: seq<PendingBatch>, tail: Batches, ops: seq<Op>, gained: seq<bool>, out: seq<PendingBatch>, issued0: set<BatchId>)
    requires |tail| < |unsent| && |tail| < |gained| && Rebuilt(unsent, tail, gained, out, issued0)
    ensures ops == [] ==> Rebuilt(unsent, tail + [ops], gained, out, issued0)
    ensures forall b :: ops != [] && RebuiltAt(unsent[|tail|], ops, gained[|tail|], b, issued0) ==> Rebuilt(unsent, tail + [ops], gained, out + [b], issued0)
  {
    assert (tail + [ops])[..|tail|] == tail;
    forall b | ops != [] && RebuiltAt(unsent[|tail|], ops, gained[|tail|], b, issued0)
      ensures Rebuilt(unsent, tail + [ops], gained, out + [b], issued0)
    {
      assert (out + [b])[..|out|] == out;
    }
  }

  /** What `coalesce_unsent` leaves of a queue whose first `n` batches are sent: the tail rewritten
  along `trace`, each batch that gained content under an id never issued before. */
  ghost predicate Refolded(before: seq<PendingBatch>, n: nat, after: seq<PendingBatch>, trace: seq<Batches>, gained: seq<bool>, fits: Op -> bool, issued0: set<BatchId>)
    requires n <= |before|
  {
    && n <= |after| && after[..n] == before[..n]
    && |trace| > 0 && trace[0] == OpsOf(before[n..]) && FoldedInto(trace, gained, fits)
    && |trace[|trace| - 1]| == |gained| == |before| - n
    && Rebuilt(before[n..], trace[|trace| - 1], gained, after[n..], issued0)
  }

  /** Nothing rebuilt is in flight, and each batch is one of the tail's. */
  lemma {:induction false} RebuiltMembers(unsent: seq<PendingBatch>, tail: Batches, gained: seq<bool>, out: seq<PendingBatch>, issued0: set<BatchId>)
    requires |tail| <= |unsent| && |tail| <= |gained| && Rebuilt(unsent, tail, gained, out, issued0)
    ensures forall i :: 0 <= i < |out| ==> !out[i].inFlight && out[i].ops in tail
    decreases |tail|
  {
    if tail != [] {
      var k := |tail| - 1;
      if tail[k] == [] {
        RebuiltMembers(unsent, tail[..k], gained, out, issued0);
      } else {
        RebuiltMembers(unsent, tail[..k], gained, out[..|out| - 1], issued0);
        forall i | 0 <= i < |out| ensures !out[i].inFlight && out[i].ops in tail {
          if i < |out| - 1 {
            assert out[i] == out[..|out| - 1][i];
          }
        }
      }
    }
  }

  lemma {:induction false} RebuiltSame(unsent: seq<PendingBatch>, n: nat, gained: seq<bool>, issued0: set<BatchId>)
    requires n <= |unsent| && n <= |gained|
    requires forall i :: 0 <= i < |unsent| ==> unsent[i].ops != [] && !unsent[i].inFlight
    requires forall i :: 0 <= i < |gained| ==> !gained[i]
    ensures Rebuilt(unsent, OpsOf(unsent)[..n], gained, unsent[..n], issued0)
    decreases n
  {
    if n > 0 {
      RebuiltSame(unsent, n - 1, gained, issued0);
      hide OpsOf;
      var q, out := OpsOf(unsent)[..n], unsent[..n];
      assert q[..n - 1] == OpsOf(unsent)[..n - 1] && out[..n - 1] == unsent[..n - 1];
      assert q[n - 1] == unsent[n - 1].ops && out[n - 1] == unsent[n - 1];
    }
  }

  /** Nothing folded is a rewriting too. */
  lemma {:induction false} RefoldedSame(pending: seq<PendingBatch>, n: nat, trace: seq<Batches>, gained: seq<bool>, fits: Op -> bool, issued0: set<BatchId>)
    requires n <= |pending| && trace == [OpsOf(pending[n..])] && |gained| == |pending| - n
    requires forall i :: 0 <= i < |pending| ==> pending[i].ops != []
    requires forall i :: n <= i < |pending| ==> !pending[i].inFlight
    requires forall i :: 0 <= i < |gained| ==> !gained[i]
    ensures Refolded(pending, n, pending, trace, gained, fits, issued0)
  {
    var unsent := pending[n..];
    var q := OpsOf(unsent);
    assert FoldedInto(trace, gained, fits);
    RebuiltSame(unsent, |unsent|, gained, issued0);
    hide OpsOf, Rebuilt, FoldedInto;
    assert unsent[..|unsent|] == unsent && q[..|unsent|] == q;
  }

  /** Batches rebuilt from the first `i` of the unsent tail: unchanged ones keep their id,
  rewritten ones got an id never issued before. */
  ghost predicate Relabelled(unsent: seq<PendingBatch>, i: nat, out: seq<PendingBatch>,
      issued0: set<BatchId>, issued: set<BatchId>, pushed: map<BatchId, seq<Op>>)
    requires i <= |unsent|
  {
    && QueueValid(out, issued, pushed)
    && forall k {:trigger out[k]} :: 0 <= k < |out| ==> !out[k].inFlight && (out[k].batch in issued0 ==> out[k] in unsent[..i])
  }

  lemma {:induction false} RelabelStep(unsent: seq<PendingBatch>, i: nat, out: seq<PendingBatch>, b: PendingBatch,
      issued0: set<BatchId>, issued: set<BatchId>, issued': set<BatchId>, pushed: map<BatchId, seq<Op>>)
    requires i < |unsent| && Relabelled(unsent, i, out, issued0, issued, pushed) && QueueValid(unsent, issued0, pushed)
    requires pushed.Keys <= issued0 <= issued <= issued' && b.batch in issued' && !b.inFlight && 1 <= |b.ops| <= MAX_OPS_PER_BATCH
    requires b.batch !in issued || b == unsent[i]
    ensures Relabelled(unsent, i + 1, out + [b], issued0, issued', pushed)
  {
    GrowValid(out, issued, issued', pushed);
    assert Own(unsent[i], issued0, pushed);
    assert Own(b, issued', pushed);
    forall k, l | 0 <= k < |out| && 0 <= l < |[b]| ensures Ahead(out[k], [b][l]) {
      assert Own(out[k], issued, pushed);
      if out[k].batch in issued0 && b == unsent[i] {
        var x :| 0 <= x < i && unsent[x] == out[k];
        assert Ahead(unsent[x], unsent[i]);
      }
    }
    JoinValid(out, [b], issued', pushed);
    assert unsent[..i + 1] == unsent[..i] + [unsent[i]];
  }

  lemma {:induction false} RelabelledValid(before: seq<PendingBatch>, n: nat, out: seq<PendingBatch>, issued0: set<BatchId>, issued: set<BatchId>, pushed: map<BatchId, seq<Op>>)
    requires n <= |before| && QueueValid(before, issued0, pushed) && issued0 <= issued
    requires Relabelled(before[n..], |before| - n, out, issued0, issued, pushed)
    ensures var after := before[..n] + out;
      && QueueValid(after, issued, pushed)
      && forall i :: 0 <= i < |after| && after[i].batch in issued0 ==> after[i] in before
  {
    var head, unsent := before[..n], before[n..];
    assert before == head + unsent && unsent[..|unsent|] == unsent;
    SplitValid(head, unsent, issued0, pushed);
    GrowValid(head, issued0, issued, pushed);
    forall k, l | 0 <= k < |head| && 0 <= l < |out| ensures Ahead(head[k], out[l]) {
      assert Own(head[k], issued0, pushed);
      if out[l].batch in issued0 {
        var x :| 0 <= x < |unsent| && unsent[x] == out[l];
        assert Ahead(head[k], unsent[x]);
      }
    }
    JoinValid(head, out, issued, pushed);
  }

  lemma {:induction false} NoneRelabelled(unsent: seq<PendingBatch>, issued: set<BatchId>, pushed: map<BatchId, seq<Op>>)
    ensures Relabelled(unsent, 0, [], issued, issued, pushed)
  {
  }

  lemma {:induction false} RelabelDrop(unsent: seq<PendingBatch>, i: nat, out: seq<PendingBatch>,
      issued0: set<BatchId>, issued: set<BatchId>, pushed: map<BatchId, seq<Op>>)
    requires i < |unsent| && Relabelled(unsent, i, out, issued0, issued, pushed)
    ensures Relabelled(unsent, i + 1, out, issued0, issued, pushed)
  {
    assert unsent[..i + 1] == unsent[..i] + [unsent[i]];
  }

  lemma {:induction false} RelabelSizes(unsent: seq<PendingBatch>, i: nat, issued: set<BatchId>, pushed: map<BatchId, seq<Op>>)
    requires i < |unsent| && QueueValid(unsent, issued, pushed)
    ensures unsent[i].batch in issued && 1 <= |unsent[i].ops| <= MAX_OPS_PER_BATCH
  {
  }

  lemma {:induction false} OpsOfOne(b: PendingBatch)
    ensures OpsOf([b]) == [b.ops]
  {
  }

  lemma {:induction false} UnsentValid(pending: seq<PendingBatch>, issued: set<BatchId>, pushed: map<BatchId, seq<Op>>)
    requires QueueValid(pending, issued, pushed)
    ensures QueueValid(pending[UnsentStart(pending)..], issued, pushed)
  {
    hide UnsentStart, QueueValid;
    Rejoin(pending, UnsentStart(pending));
    SplitValid(pending[..UnsentStart(pending)], pending[UnsentStart(pending)..], issued, pushed);
  }

  lemma {:induction false} NonEmptyBatches(pending: seq<PendingBatch>, issued: set<BatchId>, pushed: map<BatchId, seq<Op>>)
    requires QueueValid(pending, issued, pushed)
    ensures forall i :: 0 <= i < |pending| ==> pending[i].ops != []
  {
    forall i | 0 <= i < |pending| ensures pending[i].ops != [] {
      assert Own(pending[i], issued, pushed);
    }
  }

  lemma {:induction false} OwnContents(pending: seq<PendingBatch>, issued: set<BatchId>, pushed: map<BatchId, seq<Op>>)
    requires QueueValid(pending, issued, pushed)
    ensures forall i :: 0 <= i < |pending| && pending[i].batch in pushed ==> pending[i].ops == pushed[pending[i].batch]
  {
    forall i | 0 <= i < |pending| && pending[i].batch in pushed ensures pending[i].ops == pushed[pending[i].batch] {
      assert Own(pending[i], issued, pushed);
    }
  }

  lemma {:induction false} EmptyValid(issued: set<BatchId>, pushed: map<BatchId, seq<Op>>)
    ensures QueueValid([], issued, pushed)
  {
  }

  lemma {:induction false} FoldNext(row: Option<Row>, batches: seq<PendingBatch>, b: PendingBatch, key: Key)
    ensures Fold(row, OpsOf(batches + [b]), key) == FoldOps(Fold(row, OpsOf(batches), key), b.ops, key)
  {
    OpsOfConcat(batches, [b]);
    OpsOfOne(b);
    FoldConcat(row, OpsOf(batches), [b.ops], key);
    FoldOne(Fold(row, OpsOf(batches), key), b.ops, key);
  }

  /** Handing out everything unsent records each batch's content under its id, for good. */
  lemma {:induction false} Pushed(pending: seq<PendingBatch>, issued: set<BatchId>, pushed: map<BatchId, seq<Op>>)
    requires QueueValid(pending, issued, pushed) && pushed.Keys <= issued
    ensures var pushed' := PushedAfter(pending, pushed);
      && QueueValid(Marked(pending, true), issued, pushed') && pushed'.Keys <= issued
      && Recorded(Marked(pending, true)[UnsentStart(pending)..], pushed', pushed)
  {
    hide QueueValid, PushedAfter, UnsentStart;
    var pushed' := PushedAfter(pending, pushed);
    PushedAfterKeeps(pending, pushed, issued);
    MarkedValid(pending, true, issued, pushed, pushed');
    hide Marked;
    var out := Marked(pending, true)[UnsentStart(pending)..];
    forall i | 0 <= i < |out| ensures out[i].batch in pushed' && pushed'[out[i].batch] == out[i].ops {
      var b := pending[UnsentStart(pending) + i];
      assert b.batch in pushed' && pushed'[b.batch] == b.ops && out[i] == b.(inFlight := true);
    }
  }
}
