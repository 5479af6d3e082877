/** At-least-once pushing with an exactly-once effect: one row, one client whose writes stay put when
seen again behind later ones, a room that may see any batch again, connections that drop at any
point, acks that are lost or come late, and a queue that is coalesced meanwhile
(crates/doc/src/registry.rs:740-768, 788-952; edge/src/registry-room.ts:425-491). */
module ExactlyOnce {
  import opened Wrappers
  import opened Seqs
  import opened Hlc
  import opened RegistryCore
  import opened OpRewriting
  import opened MergeLaws
  import opened Queue
  import opened PendingQueue
  import opened RegistryDoc
  import opened WriteReplay

  /** The client's queue, what is under way on this connection (`up`) and left over from earlier
  ones (`stray`), the ids the room has taken, and its row. `log` is every write so far. */
  datatype World = World(
    log: seq<Op>, pending: seq<PendingBatch>, flight: nat, issued: set<BatchId>,
    up: seq<PendingBatch>, stray: seq<seq<PendingBatch>>,
    server: Option<Row>, taken: set<BatchId>)

  // ── steps ─────────────────────────────────────────────────────────────────

  /** Local writes join the queue under fresh ids. */
  ghost predicate Write(w: World, ops: seq<Op>, added: seq<PendingBatch>, w': World, key: Key) {
    && OpsOf(added) == Chunks(ops) && Disciplined(w'.log, key)
    && (forall i :: 0 <= i < |added| ==> !added[i].inFlight && added[i].batch !in w.issued)
    && (forall i, j {:trigger OtherId(added[i], added[j])} :: 0 <= i < j < |added| ==> OtherId(added[i], added[j]))
    && w.issued + Ids(added) <= w'.issued
    && w' == w.(log := w.log + OnKey(ops, key), pending := w.pending + added, issued := w'.issued)
  }

  function Ids(batches: seq<PendingBatch>): set<BatchId> {
    set b | b in batches :: b.batch
  }

  predicate OtherId(a: PendingBatch, b: PendingBatch) {
    a.batch != b.batch
  }

  /** `coalesce_unsent`, as the replica's method leaves the queue. */
  ghost predicate Coalesce(w: World, trace: seq<Batches>, gained: seq<bool>, fits: Op -> bool, w': World) {
    && w.flight <= |w.pending| && Refolded(w.pending, w.flight, w'.pending, trace, gained, fits, w.issued)
    && w.issued <= w'.issued && Ids(w'.pending) <= w'.issued
    && (forall i, j {:trigger OtherId(w'.pending[i], w'.pending[j])} :: 0 <= i < j < |w'.pending| ==> OtherId(w'.pending[i], w'.pending[j]))
    && w' == w.(pending := w'.pending, issued := w'.issued)
  }

  ghost predicate Take(w: World, w': World) {
    && w.flight <= |w.pending|
    && var marked := Marked(w.pending, true);
       w' == w.(pending := marked, flight := |w.pending|, up := w.up + marked[w.flight..])
  }

  /** The connection drops: of what was under way, a prefix still arrives, some time. */
  ghost predicate Disconnect(w: World, arrives: nat, w': World) {
    && arrives <= |w.up|
    && w' == w.(pending := Marked(w.pending, false), flight := 0, up := [], stray := w.stray + [w.up[..arrives]])
  }

  ghost predicate RoomTakes(w: World, w': World, key: Key) {
    && w.up != []
    && w' == w.(up := w.up[1..], server := FoldOps(w.server, w.up[0].ops, key), taken := w.taken + {w.up[0].batch})
  }

  /** The room takes a batch left over from an earlier connection, for the last time or not. */
  ghost predicate RoomTakesStray(w: World, c: nat, again: bool, w': World, key: Key) {
    && c < |w.stray| && w.stray[c] != []
    && var b := w.stray[c][0];
       w' == w.(
         stray := if again then w.stray else w.stray[c := w.stray[c][1..]],
         server := FoldOps(w.server, b.ops, key), taken := w.taken + {b.batch})
  }

  /** An ack arrives, for any batch the room ever took. */
  ghost predicate Retire(w: World, id: BatchId, w': World) {
    && id in w.taken
    && w' == w.(pending := Without(w.pending, id), flight := UnsentStart(Without(w.pending, id)))
  }

  ghost predicate Step(w: World, w': World, key: Key, fits: Op -> bool) {
    || (exists ops, added :: Write(w, ops, added, w', key))
    || (exists trace, gained :: Coalesce(w, trace, gained, fits, w'))
    || Take(w, w')
    || (exists n :: Disconnect(w, n, w'))
    || RoomTakes(w, w', key)
    || (exists c, again :: RoomTakesStray(w, c, again, w', key))
    || (exists id :: Retire(w, id, w'))
  }

  function Start(row: Option<Row>): World {
    World([], [], 0, {}, [], [], row, {})
  }

  ghost predicate Run(trace: seq<World>, row: Option<Row>, key: Key, fits: Op -> bool)
    decreases |trace|
  {
    var n := |trace|;
    && n > 0
    && (if n == 1 then trace[0] == Start(row) else Step(trace[n - 2], trace[n - 1], key, fits) && Run(trace[..n - 1], row, key, fits))
  }

  // ── the invariant ─────────────────────────────────────────────────────────

  ghost predicate Ready(done: nat, log: seq<Op>, batches: seq<PendingBatch>, tag: map<BatchId, seq<nat>>, key: Key) {
    && Tagged(batches, tag, log, key) && Covered(done, Tags(batches, tag))
  }

  /** Replaying these batches completes the log. */
  ghost predicate Completes(done: nat, log: seq<Op>, batches: seq<PendingBatch>, tag: map<BatchId, seq<nat>>, key: Key) {
    Ready(done, log, batches, tag, key) && Reach(done, Tags(batches, tag)) == |log|
  }

  ghost predicate QueueShape(w: World) {
    && w.flight <= |w.pending|
    && (forall i {:trigger w.pending[i]} :: 0 <= i < |w.pending| ==> (w.pending[i].inFlight <==> i < w.flight))
  }

  ghost predicate Known(issued: set<BatchId>, taken: set<BatchId>, tag: map<BatchId, seq<nat>>, done: nat) {
    && tag.Keys <= issued
    && forall id :: id in taken ==> id in tag && Below(tag[id], done)
  }

  /** The room's row is a prefix of the writes, each applied once; the queue, and what is under
  way followed by what is not yet sent, complete it; leftovers never skip ahead. */
  ghost predicate Inv(w: World, row: Option<Row>, key: Key, tag: map<BatchId, seq<nat>>, done: nat) {
    && Disciplined(w.log, key) && done <= |w.log|
    && w.server == FoldOps(row, w.log[..done], key)
    && QueueShape(w) && Known(w.issued, w.taken, tag, done)
    && Completes(done, w.log, w.pending, tag, key)
    && Completes(done, w.log, w.up + w.pending[w.flight..], tag, key)
    && forall c :: 0 <= c < |w.stray| ==> Ready(done, w.log, w.stray[c], tag, key)
  }

  // ── lists of batches ──────────────────────────────────────────────────────

  lemma {:induction false} TaggedConcat(x: seq<PendingBatch>, y: seq<PendingBatch>, tag: map<BatchId, seq<nat>>, log: seq<Op>, key: Key)
    ensures Tagged(x + y, tag, log, key) <==> Tagged(x, tag, log, key) && Tagged(y, tag, log, key)
  {
    hide Acts;
    var z := x + y;
    if Tagged(z, tag, log, key) {
      forall i | 0 <= i < |x| ensures x[i].batch in tag && Acts(x[i].ops, log, tag[x[i].batch], key) {
        assert z[i] == x[i];
      }
      forall i | 0 <= i < |y| ensures y[i].batch in tag && Acts(y[i].ops, log, tag[y[i].batch], key) {
        assert z[|x| + i] == y[i];
      }
    }
  }

  lemma {:induction false} ReadyConcat(done: nat, log: seq<Op>, x: seq<PendingBatch>, y: seq<PendingBatch>, tag: map<BatchId, seq<nat>>, key: Key)
    ensures Ready(done, log, x + y, tag, key) <==>
      Ready(done, log, x, tag, key) && Ready(Reach(done, Tags(x, tag)), log, y, tag, key)
    ensures Reach(done, Tags(x + y, tag)) == Reach(Reach(done, Tags(x, tag)), Tags(y, tag))
  {
    hide Tagged;
    TaggedConcat(x, y, tag, log, key);
    TagsConcat(x, y, tag);
    CoveredConcat(done, Tags(x, tag), Tags(y, tag));
  }

  lemma {:induction false} ReadyLater(done: nat, more: nat, log: seq<Op>, batches: seq<PendingBatch>, tag: map<BatchId, seq<nat>>, key: Key)
    requires done <= more <= |log|
    ensures Ready(done, log, batches, tag, key) ==> Ready(more, log, batches, tag, key)
    ensures Completes(done, log, batches, tag, key) ==> Completes(more, log, batches, tag, key)
  {
    hide Tagged;
    ReachMax(done, more, Tags(batches, tag));
  }

  /** Marks do not matter. */
  lemma {:induction false} ReadyMarked(done: nat, log: seq<Op>, x: seq<PendingBatch>, y: seq<PendingBatch>, tag: map<BatchId, seq<nat>>, key: Key)
    requires |x| == |y| && forall i :: 0 <= i < |x| ==> x[i].batch == y[i].batch && x[i].ops == y[i].ops
    ensures Ready(done, log, x, tag, key) ==> Ready(done, log, y, tag, key) && Tags(y, tag) == Tags(x, tag)
  {
    if Ready(done, log, x, tag, key) {
      hide Acts;
      forall i | 0 <= i < |y| ensures y[i].batch in tag && Acts(y[i].ops, log, tag[y[i].batch], key) {
        assert x[i].batch in tag;
      }
      TagsSame(x, y, tag, tag);
    }
  }

  /** More ids get tags, more writes join the log. */
  lemma {:induction false} ReadyGrows(done: nat, log: seq<Op>, log': seq<Op>, x: seq<PendingBatch>, tag: map<BatchId, seq<nat>>, tag': map<BatchId, seq<nat>>, key: Key)
    requires Ready(done, log, x, tag, key) && log <= log'
    requires forall id :: id in tag ==> id in tag' && tag'[id] == tag[id]
    ensures Ready(done, log', x, tag', key) && Tags(x, tag') == Tags(x, tag)
  {
    forall i | 0 <= i < |x| ensures x[i].batch in tag' && Acts(x[i].ops, log', tag'[x[i].batch], key) {
      assert x[i].batch in tag && Acts(x[i].ops, log, tag[x[i].batch], key);
      ActsGrows(x[i].ops, log, log', tag[x[i].batch], key);
    }
    hide Acts;
    TagsSame(x, x, tag, tag');
  }

  // ── the room takes a batch ────────────────────────────────────────────────

  /** The first batch of a ready list is applied to the room's row. */
  lemma {:induction false} TakeHead(w: World, row: Option<Row>, key: Key, tag: map<BatchId, seq<nat>>, done: nat, batches: seq<PendingBatch>)
    returns (done': nat)
    requires Inv(w, row, key, tag, done) && batches != [] && Ready(done, w.log, batches, tag, key)
    ensures done <= done' <= |w.log| && done' == Reach(done, Tags(batches[..1], tag))
    ensures FoldOps(w.server, batches[0].ops, key) == FoldOps(row, w.log[..done'], key)
    ensures batches[0].batch in tag && Below(tag[batches[0].batch], done')
    ensures Ready(done', w.log, batches[1..], tag, key)
    ensures Reach(done', Tags(batches[1..], tag)) == Reach(done, Tags(batches, tag))
  {
    var b := batches[0];
    assert batches == batches[..1] + batches[1..] && batches[..1] == [b];
    assert b.batch in tag && Acts(b.ops, w.log, tag[b.batch], key);
    hide Acts, Covered, QueueShape, Completes, Known;
    TagsOne(b, tag);
    ReadyConcat(done, w.log, [b], batches[1..], tag, key);
    ReplayBatch(row, w.log, done, b.ops, tag[b.batch], key);
    done' := Reach(done, tag[b.batch]);
    ReachBelow(done, tag[b.batch], |w.log|);
  }

  lemma {:induction false} ReplayBatch(row: Option<Row>, log: seq<Op>, done: nat, ops: seq<Op>, idx: seq<nat>, key: Key)
    requires Disciplined(log, key) && done <= |log| && Acts(ops, log, idx, key) && Covered(done, idx)
    ensures Reach(done, idx) <= |log| && Below(idx, |log|)
    ensures FoldOps(FoldOps(row, log[..done], key), ops, key) == FoldOps(row, log[..Reach(done, idx)], key)
  {
    Replay(row, log, done, idx, key);
  }

  /** Everything but the channel the batch came from is as ready as before. */
  lemma {:induction false} RestLater(w: World, w': World, row: Option<Row>, key: Key, tag: map<BatchId, seq<nat>>, done: nat, done': nat, b: PendingBatch)
    requires Inv(w, row, key, tag, done) && done <= done' <= |w.log|
    requires b.batch in tag && Below(tag[b.batch], done')
    requires w'.log == w.log && w'.pending == w.pending && w'.flight == w.flight && w'.issued == w.issued && w'.taken == w.taken + {b.batch}
    ensures QueueShape(w') && Known(w'.issued, w'.taken, tag, done')
    ensures Completes(done', w.log, w.pending, tag, key)
    ensures Completes(done', w.log, w.up + w.pending[w.flight..], tag, key)
    ensures forall c :: 0 <= c < |w.stray| ==> Ready(done', w.log, w.stray[c], tag, key)
  {
    hide Ready, Completes, Disciplined;
    ReadyLater(done, done', w.log, w.pending, tag, key);
    ReadyLater(done, done', w.log, w.up + w.pending[w.flight..], tag, key);
    forall c | 0 <= c < |w.stray| ensures Ready(done', w.log, w.stray[c], tag, key) {
      ReadyLater(done, done', w.log, w.stray[c], tag, key);
    }
  }

  lemma {:induction false} RoomTakesKeeps(w: World, w': World, row: Option<Row>, key: Key, tag: map<BatchId, seq<nat>>, done: nat)
    returns (done': nat)
    requires Inv(w, row, key, tag, done) && RoomTakes(w, w', key)
    ensures Inv(w', row, key, tag, done')
  {
    hide Ready, Known, Disciplined, Tags, Tagged, FoldOps;
    var all := w.up + w.pending[w.flight..];
    assert all[1..] == w.up[1..] + w.pending[w.flight..] && all[0] == w.up[0];
    done' := TakeHead(w, row, key, tag, done, all);
    RestLater(w, w', row, key, tag, done, done', w.up[0]);
    hide Ready, Known, QueueShape, Disciplined;
  }

  lemma {:induction false} RoomTakesStrayKeeps(w: World, c: nat, again: bool, w': World, row: Option<Row>, key: Key, tag: map<BatchId, seq<nat>>, done: nat)
    returns (done': nat)
    requires Inv(w, row, key, tag, done) && RoomTakesStray(w, c, again, w', key)
    ensures Inv(w', row, key, tag, done')
  {
    done' := TakeHead(w, row, key, tag, done, w.stray[c]);
    RestLater(w, w', row, key, tag, done, done', w.stray[c][0]);
    hide Ready, Known, QueueShape, Disciplined, Completes;
  }

  // ── the client's steps ────────────────────────────────────────────────────

  lemma {:induction false} TakeKeeps(w: World, w': World, row: Option<Row>, key: Key, tag: map<BatchId, seq<nat>>, done: nat)
    requires Inv(w, row, key, tag, done) && Take(w, w')
    ensures Inv(w', row, key, tag, done)
  {
    hide Ready, Known, Disciplined, Tags, Tagged, FoldOps;
    ReadyMarked(done, w.log, w.pending, w'.pending, tag, key);
    AllTaken(w.up, w.pending, w.flight, w'.pending, w'.flight);
    ReadyMarked(done, w.log, w.up + w.pending[w.flight..], w'.up, tag, key);
  }

  lemma {:induction false} AllTaken(up: seq<PendingBatch>, pending: seq<PendingBatch>, flight: nat, marked: seq<PendingBatch>, flight': nat)
    requires flight <= |pending| && |marked| == |pending| == flight'
    requires forall i :: 0 <= i < |marked| ==> marked[i].batch == pending[i].batch && marked[i].ops == pending[i].ops
    ensures (up + marked[flight..]) + marked[flight'..] == up + marked[flight..]
    ensures var x, y := up + pending[flight..], up + marked[flight..];
      |x| == |y| && forall i :: 0 <= i < |x| ==> x[i].batch == y[i].batch && x[i].ops == y[i].ops
  {
  }

  lemma {:induction false} DisconnectKeeps(w: World, n: nat, w': World, row: Option<Row>, key: Key, tag: map<BatchId, seq<nat>>, done: nat)
    requires Inv(w, row, key, tag, done) && Disconnect(w, n, w')
    ensures Inv(w', row, key, tag, done)
  {
    hide Ready, Known, Disciplined, Tags, Tagged, FoldOps;
    ReadyMarked(done, w.log, w.pending, w'.pending, tag, key);
    NothingUp(w'.pending);
    CutUp(w.up, n, w.pending[w.flight..]);
    ReadyConcat(done, w.log, w.up[..n], w.up[n..] + w.pending[w.flight..], tag, key);
    forall c | 0 <= c < |w'.stray| ensures Ready(done, w'.log, w'.stray[c], tag, key) {
      if c < |w.stray| {
        assert w'.stray[c] == w.stray[c];
      }
    }
  }

  lemma {:induction false} NothingUp(pending: seq<PendingBatch>)
    ensures [] + pending[0..] == pending
  {
  }

  lemma {:induction false} CutUp(up: seq<PendingBatch>, n: nat, unsent: seq<PendingBatch>)
    requires n <= |up|
    ensures up + unsent == up[..n] + (up[n..] + unsent)
  {
  }

  /** Batches whose writes the room already took can be dropped anywhere in a list. */
  lemma {:induction false} WithoutReady(done: nat, log: seq<Op>, batches: seq<PendingBatch>, id: BatchId, tag: map<BatchId, seq<nat>>, key: Key, least: nat)
    requires least <= done && id in tag && Below(tag[id], least) && Ready(done, log, batches, tag, key)
    ensures Ready(done, log, Without(batches, id), tag, key)
    ensures Reach(done, Tags(Without(batches, id), tag)) == Reach(done, Tags(batches, tag))
    decreases |batches|
  {
    if batches != [] {
      var b, rest := batches[0], batches[1..];
      assert batches == [b] + rest;
      hide Tagged, Covered;
      ReadyConcat(done, log, [b], rest, tag, key);
      assert [b][0] == b && Tagged([b], tag, log, key);
      HeadTagged(b, tag, log, key);
      TagsOne(b, tag);
      var next := Reach(done, tag[b.batch]);
      ReachMax(done, done, tag[b.batch]);
      WithoutReady(next, log, rest, id, tag, key, least);
      if b.batch == id {
        assert Below(tag[id], done);
        BelowIsDone(done, tag[id]);
        assert Without(batches, id) == Without(rest, id);
      } else {
        assert Without(batches, id) == [b] + Without(rest, id);
        ReadyConcat(done, log, [b], Without(rest, id), tag, key);
      }
    }
  }

  lemma {:induction false} HeadTagged(b: PendingBatch, tag: map<BatchId, seq<nat>>, log: seq<Op>, key: Key)
    requires Tagged([b], tag, log, key)
    ensures b.batch in tag && Acts(b.ops, log, tag[b.batch], key)
  {
    assert [b][0] == b;
  }

  lemma {:induction false} WithoutConcat(x: seq<PendingBatch>, y: seq<PendingBatch>, id: BatchId)
    ensures Without(x + y, id) == Without(x, id) + Without(y, id)
    decreases |x|
  {
    if x == [] {
      assert x + y == y;
    } else {
      assert (x + y)[0] == x[0] && (x + y)[1..] == x[1..] + y;
      WithoutConcat(x[1..], y, id);
    }
  }

  /** The in-flight batches stay in front when one is retired. */
  lemma {:induction false} WithoutMarks(batches: seq<PendingBatch>, id: BatchId, on: bool)
    requires forall i :: 0 <= i < |batches| ==> batches[i].inFlight == on
    ensures forall i :: 0 <= i < |Without(batches, id)| ==> Without(batches, id)[i].inFlight == on
    decreases |batches|
  {
    if batches != [] {
      WithoutMarks(batches[1..], id, on);
    }
  }

  lemma {:induction false} UnsentStartSplit(x: seq<PendingBatch>, y: seq<PendingBatch>)
    requires forall i :: 0 <= i < |x| ==> x[i].inFlight
    requires forall i :: 0 <= i < |y| ==> !y[i].inFlight
    ensures UnsentStart(x + y) == |x|
  {
    UnsentStartAppend(x, y);
    if x != [] {
      assert x[|x| - 1].inFlight;
    }
  }

  /** The sent and the unsent part of the queue, without one batch. */
  lemma {:induction false} WithoutSplit(w: World, id: BatchId)
    requires QueueShape(w)
    ensures var left := Without(w.pending, id);
      var n := UnsentStart(left);
      && left[n..] == Without(w.pending[w.flight..], id)
      && forall i :: 0 <= i < |left| ==> (left[i].inFlight <==> i < n)
  {
    var sent, unsent := w.pending[..w.flight], w.pending[w.flight..];
    var sent', unsent' := Without(sent, id), Without(unsent, id);
    Rejoin(w.pending, w.flight);
    WithoutConcat(sent, unsent, id);
    WithoutMarks(sent, id, true);
    WithoutMarks(unsent, id, false);
    UnsentStartSplit(sent', unsent');
    hide Without, UnsentStart;
    var left := Without(w.pending, id);
    assert left == sent' + unsent';
    assert (sent' + unsent')[|sent'|..] == unsent';
  }

  lemma {:induction false} TakenIsDone(issued: set<BatchId>, taken: set<BatchId>, tag: map<BatchId, seq<nat>>, done: nat, id: BatchId)
    requires Known(issued, taken, tag, done) && id in taken
    ensures id in tag && Below(tag[id], done)
  {
  }

  lemma {:induction false} RetireKeeps(w: World, id: BatchId, w': World, row: Option<Row>, key: Key, tag: map<BatchId, seq<nat>>, done: nat)
    requires Inv(w, row, key, tag, done) && Retire(w, id, w')
    ensures Inv(w', row, key, tag, done)
  {
    hide Ready, Known, Disciplined, Tags, Tagged, FoldOps, Without, UnsentStart, Below;
    TakenIsDone(w.issued, w.taken, tag, done, id);
    var unsent := w.pending[w.flight..];
    WithoutSplit(w, id);
    WithoutReady(done, w.log, w.pending, id, tag, key, done);
    ReadyConcat(done, w.log, w.up, unsent, tag, key);
    ReadyConcat(done, w.log, w.up, Without(unsent, id), tag, key);
    ReachMax(done, done, Tags(w.up, tag));
    WithoutReady(Reach(done, Tags(w.up, tag)), w.log, unsent, id, tag, key, done);
  }

  // ── local writes and folding ──────────────────────────────────────────────

  /** Tags for freshly queued batches: the new writes, in order. */
  lemma {:induction false} TagChunks(ops: seq<Op>, added: seq<PendingBatch>, log: seq<Op>, tag: map<BatchId, seq<nat>>, key: Key)
    returns (tag': map<BatchId, seq<nat>>)
    requires OpsOf(added) == Chunks(ops)
    requires forall i :: 0 <= i < |added| ==> added[i].batch !in tag
    requires forall i, j {:trigger OtherId(added[i], added[j])} :: 0 <= i < j < |added| ==> OtherId(added[i], added[j])
    ensures forall id :: id in tag ==> id in tag' && tag'[id] == tag[id]
    ensures tag'.Keys <= tag.Keys + Ids(added)
    ensures var log' := log + OnKey(ops, key);
      Tagged(added, tag', log', key) && Tags(added, tag') == Range(|log|, |log'|)
    decreases |ops|
  {
    hide Acts, OnKey, Range, OpsOf, Chunks, Tags, Tagged, Ids, OtherId;
    if ops == [] {
      NoChunks(added, log, tag, key);
      tag' := tag;
    } else {
      var x, y, mid, all := SplitChunks(ops, added, log, key);
      FreshActs(x, log, all, key);
      var tag1 := tag[added[0].batch := Range(|log|, |mid|)];
      RestFresh(added, tag, tag1);
      tag' := TagChunks(y, added[1..], mid, tag1, key);
      assert added[0].batch in tag1;
      TagHead(added, x, log, mid, all, tag', key);
    }
  }

  lemma {:induction false} NoChunks(added: seq<PendingBatch>, log: seq<Op>, tag: map<BatchId, seq<nat>>, key: Key)
    requires OpsOf(added) == Chunks([])
    ensures var log' := log + OnKey([], key);
      Tagged(added, tag, log', key) && Tags(added, tag) == Range(|log|, |log'|)
  {
    assert added == [];
  }

  lemma {:induction false} RestFresh(added: seq<PendingBatch>, tag: map<BatchId, seq<nat>>, tag1: map<BatchId, seq<nat>>)
    requires added != [] && tag1.Keys == tag.Keys + {added[0].batch}
    requires forall i :: 0 <= i < |added| ==> added[i].batch !in tag
    requires forall i, j {:trigger OtherId(added[i], added[j])} :: 0 <= i < j < |added| ==> OtherId(added[i], added[j])
    ensures var rest := added[1..];
      && (forall i :: 0 <= i < |rest| ==> rest[i].batch !in tag1)
      && (forall i, j {:trigger OtherId(rest[i], rest[j])} :: 0 <= i < j < |rest| ==> OtherId(rest[i], rest[j]))
      && Ids(added) == Ids(rest) + {added[0].batch}
  {
    var rest := added[1..];
    assert added == [added[0]] + rest;
    forall i | 0 <= i < |rest| ensures rest[i].batch !in tag1 {
      assert rest[i] == added[i + 1] && OtherId(added[0], added[i + 1]);
    }
    forall i, j | 0 <= i < j < |rest| ensures OtherId(rest[i], rest[j]) {
      assert OtherId(added[i + 1], added[j + 1]);
    }
  }

  lemma {:induction false} SplitChunks(ops: seq<Op>, added: seq<PendingBatch>, log: seq<Op>, key: Key)
    returns (x: seq<Op>, y: seq<Op>, mid: seq<Op>, all: seq<Op>)
    requires ops != [] && OpsOf(added) == Chunks(ops)
    ensures added != [] && added[0].ops == x && OpsOf(added[1..]) == Chunks(y) && |y| < |ops|
    ensures mid == log + OnKey(x, key) && all == mid + OnKey(y, key) && all == log + OnKey(ops, key)
  {
    var n := if |ops| > MAX_OPS_PER_BATCH then MAX_OPS_PER_BATCH else |ops|;
    x, y := ops[..n], ops[n..];
    ChunkHead(ops, n);
    hide OpsOf, Chunks, OnKey;
    HeadOps(added, x, Chunks(y));
    OnKeyConcat(x, y, key);
    assert ops == x + y;
    mid, all := log + OnKey(x, key), log + OnKey(ops, key);
  }

  lemma {:induction false} TagHead(added: seq<PendingBatch>, x: seq<Op>, log: seq<Op>, mid: seq<Op>, all: seq<Op>, tag: map<BatchId, seq<nat>>, key: Key)
    requires added != [] && added[0].ops == x && |log| <= |mid| <= |all|
    requires added[0].batch in tag && tag[added[0].batch] == Range(|log|, |mid|)
    requires Acts(x, all, Range(|log|, |mid|), key)
    requires Tagged(added[1..], tag, all, key) && Tags(added[1..], tag) == Range(|mid|, |all|)
    ensures Tagged(added, tag, all, key) && Tags(added, tag) == Range(|log|, |all|)
  {
    hide Acts, Range, Tags;
    RangeSplit(|log|, |mid|, |all|);
    assert added == [added[0]] + added[1..];
    TagsConcat([added[0]], added[1..], tag);
    TagsOne(added[0], tag);
    forall i | 0 <= i < |added| ensures added[i].batch in tag && Acts(added[i].ops, all, tag[added[i].batch], key) {
      if i > 0 {
        assert added[i] == added[1..][i - 1];
      }
    }
  }

  lemma {:induction false} HeadOps(added: seq<PendingBatch>, x: seq<Op>, more: Batches)
    requires OpsOf(added) == [x] + more
    ensures added != [] && added[0].ops == x && OpsOf(added[1..]) == more
  {
    hide OpsOf;
    var q := OpsOf(added);
    assert |q| == 1 + |more| && q[0] == x && q[1..] == more;
    var rest := added[1..];
    forall i | 0 <= i < |rest| ensures OpsOf(rest)[i] == more[i] {
      assert OpsOf(rest)[i] == rest[i].ops && q[i + 1] == added[i + 1].ops;
    }
  }

  lemma {:induction false} RangeSplit(lo: nat, mid: nat, hi: nat)
    requires lo <= mid <= hi
    ensures Range(lo, hi) == Range(lo, mid) + Range(mid, hi)
  {
  }

  lemma {:induction false} WriteKeeps(w: World, ops: seq<Op>, added: seq<PendingBatch>, w': World, row: Option<Row>, key: Key, tag: map<BatchId, seq<nat>>, done: nat)
    returns (tag': map<BatchId, seq<nat>>)
    requires Inv(w, row, key, tag, done) && Write(w, ops, added, w', key)
    ensures Inv(w', row, key, tag', done)
  {
    hide Ready, Completes, Disciplined, Tags, Tagged, FoldOps, OnKey, Range, OpsOf, Chunks, Ids;
    var log, log' := w.log, w'.log;
    var unsent := w.pending[w.flight..];
    tag' := TagChunks(ops, added, log, tag, key);
    KnownGrows(w.issued, w'.issued, w.taken, tag, tag', done, added);
    hide Known;
    Appended(done, log, log', w.pending, added, tag, tag', key);
    Appended(done, log, log', w.up + unsent, added, tag, tag', key);
    CutAppended(w.pending, added, w.flight);
    Assoc(w.up, unsent, added);
    Prefix(log, log', done);
    forall c | 0 <= c < |w'.stray| ensures Ready(done, w'.log, w'.stray[c], tag', key) {
      ReadyGrows(done, log, log', w.stray[c], tag, tag', key);
    }
  }

  lemma {:induction false} KnownGrows(issued: set<BatchId>, issued': set<BatchId>, taken: set<BatchId>, tag: map<BatchId, seq<nat>>, tag': map<BatchId, seq<nat>>, done: nat, added: seq<PendingBatch>)
    requires Known(issued, taken, tag, done)
    requires forall id :: id in tag ==> id in tag' && tag'[id] == tag[id]
    requires tag'.Keys <= tag.Keys + Ids(added)
    requires issued + Ids(added) <= issued'
    ensures Known(issued', taken, tag', done)
  {
    hide Ids;
    forall id | id in tag' ensures id in issued' {
      assert id in tag'.Keys;
    }
  }

  lemma {:induction false} Prefix(log: seq<Op>, log': seq<Op>, n: nat)
    requires n <= |log| && log <= log'
    ensures log'[..n] == log[..n]
  {
  }

  /** A list that completes the log, with the new writes behind it, completes the longer log. */
  lemma {:induction false} Appended(done: nat, log: seq<Op>, log': seq<Op>, batches: seq<PendingBatch>, added: seq<PendingBatch>,
      tag: map<BatchId, seq<nat>>, tag': map<BatchId, seq<nat>>, key: Key)
    requires Completes(done, log, batches, tag, key) && log <= log'
    requires forall id :: id in tag ==> id in tag' && tag'[id] == tag[id]
    requires Tagged(added, tag', log', key) && Tags(added, tag') == Range(|log|, |log'|)
    ensures Completes(done, log', batches + added, tag', key)
  {
    hide Tagged;
    ReadyGrows(done, log, log', batches, tag, tag', key);
    RangeCovered(|log|, |log'|);
    ReadyConcat(done, log', batches, added, tag', key);
  }

  /** The writes the unsent batches stand for, batch by batch. */
  function TagList(batches: seq<PendingBatch>, tag: map<BatchId, seq<nat>>): (idx: seq<seq<nat>>)
    ensures |idx| == |batches|
    ensures forall i :: 0 <= i < |batches| && batches[i].batch in tag ==> idx[i] == tag[batches[i].batch]
  {
    seq(|batches|, i requires 0 <= i < |batches| => if batches[i].batch in tag then tag[batches[i].batch] else [])
  }

  lemma {:induction false} TagListFlat(batches: seq<PendingBatch>, tag: map<BatchId, seq<nat>>, log: seq<Op>, key: Key)
    requires Tagged(batches, tag, log, key)
    ensures TaggedQueue(OpsOf(batches), TagList(batches, tag), log, key)
    ensures Flat(TagList(batches, tag)) == Tags(batches, tag)
    decreases |batches|
  {
    hide Acts;
    if batches != [] {
      var front, last := batches[..|batches| - 1], batches[|batches| - 1];
      var idx := TagList(batches, tag);
      assert batches == front + [last] && last.batch in tag;
      TagListFlat(front, tag, log, key);
      assert idx[..|idx| - 1] == TagList(front, tag);
      TagsConcat(front, [last], tag);
      TagsOne(last, tag);
    }
  }

  /** The rebuilt tail stands for the writes the rewritten one does: batches that kept their id
  kept their writes, and new ids get theirs. */
  lemma {:induction false} RebuiltTags(unsent: seq<PendingBatch>, tail: Batches, gained: seq<bool>, out: seq<PendingBatch>, issued0: set<BatchId>,
      idx: seq<seq<nat>>, idx': seq<seq<nat>>, tag: map<BatchId, seq<nat>>, log: seq<Op>, key: Key)
    returns (tag': map<BatchId, seq<nat>>)
    requires |tail| <= |unsent| && |tail| <= |gained| && Rebuilt(unsent, tail, gained, out, issued0)
    requires tag.Keys <= issued0 && Tagged(unsent, tag, log, key) && idx == TagList(unsent, tag)
    requires |tail| <= |idx'| && forall p :: 0 <= p < |tail| ==> Acts(tail[p], log, idx'[p], key)
    requires forall p :: 0 <= p < |tail| && !gained[p] ==> idx'[p] == idx[p] || tail[p] == []
    requires forall i, j {:trigger OtherId(out[i], out[j])} :: 0 <= i < j < |out| ==> OtherId(out[i], out[j])
    ensures forall id :: id in tag ==> id in tag' && tag'[id] == tag[id]
    ensures tag'.Keys <= tag.Keys + Ids(out)
    ensures Tagged(out, tag', log, key) && Tags(out, tag') == Flat(idx'[..|tail|])
    decreases |tail|
  {
    hide Acts, Tags, Tagged, Ids, TagList, Flat;
    if tail == [] {
      tag' := tag;
      NothingRebuilt(tag, idx', log, key);
    } else {
      var k := |tail| - 1;
      FlatUpTo(idx', k);
      if tail[k] == [] {
        NoWrites(log, idx'[k], key);
        tag' := RebuiltTags(unsent, tail[..k], gained, out, issued0, idx, idx', tag, log, key);
        NoneAdded(Flat(idx'[..k]));
      } else {
        var head, b := out[..|out| - 1], out[|out| - 1];
        forall i, j | 0 <= i < j < |head| ensures OtherId(head[i], head[j]) {
          assert OtherId(out[i], out[j]);
        }
        forall i | 0 <= i < |head| ensures OtherId(head[i], b) {
          assert OtherId(out[i], out[|out| - 1]);
        }
        var tag0 := RebuiltTags(unsent, tail[..k], gained, head, issued0, idx, idx', tag, log, key);
        TagOf(unsent, k, tag, log, key);
        tag' := RebuiltLast(unsent[k], tail[k], gained[k], head, b, idx'[k], tag, tag0, issued0, log, key);
        assert out == head + [b];
      }
    }
  }

  lemma {:induction false} NothingRebuilt(tag: map<BatchId, seq<nat>>, idx: seq<seq<nat>>, log: seq<Op>, key: Key)
    ensures Tagged([], tag, log, key) && Tags([], tag) == Flat(idx[..0])
  {
    assert idx[..0] == [];
  }

  lemma {:induction false} NoneAdded(idx: seq<nat>)
    ensures idx + [] == idx
  {
  }

  lemma {:induction false} FlatUpTo(idx: seq<seq<nat>>, k: nat)
    requires k < |idx|
    ensures Flat(idx[..k + 1]) == Flat(idx[..k]) + idx[k]
  {
    assert idx[..k + 1] == idx[..k] + [idx[k]];
    FlatConcat(idx[..k], [idx[k]]);
    FlatOne(idx[k]);
  }

  lemma {:induction false} TagOf(batches: seq<PendingBatch>, k: nat, tag: map<BatchId, seq<nat>>, log: seq<Op>, key: Key)
    requires k < |batches| && Tagged(batches, tag, log, key)
    ensures batches[k].batch in tag && TagList(batches, tag)[k] == tag[batches[k].batch]
  {
    assert batches[k].batch in tag;
  }

  /** The last rebuilt batch, tagged. */
  lemma {:induction false} RebuiltLast(was: PendingBatch, ops: seq<Op>, gained: bool, head: seq<PendingBatch>, b: PendingBatch, idx: seq<nat>,
      tag: map<BatchId, seq<nat>>, tag0: map<BatchId, seq<nat>>, issued0: set<BatchId>, log: seq<Op>, key: Key)
    returns (tag': map<BatchId, seq<nat>>)
    requires tag.Keys <= issued0 && was.batch in tag && RebuiltAt(was, ops, gained, b, issued0)
    requires Acts(ops, log, idx, key) && (gained || idx == tag[was.batch])
    requires forall id :: id in tag ==> id in tag0 && tag0[id] == tag[id]
    requires tag0.Keys <= tag.Keys + Ids(head) && Tagged(head, tag0, log, key)
    requires forall i :: 0 <= i < |head| ==> OtherId(head[i], b)
    ensures forall id :: id in tag ==> id in tag' && tag'[id] == tag[id]
    ensures tag'.Keys <= tag.Keys + Ids(head + [b])
    ensures Tagged(head + [b], tag', log, key) && Tags(head + [b], tag') == Tags(head, tag0) + idx
  {
    hide Acts, Tags, Tagged, Ids;
    IdsLast(head, b);
    if gained {
      AddTag(head, b, tag0, idx, log, key);
      tag' := tag0[b.batch := idx];
    } else {
      KeepTag(head, b, tag0, log, key);
      tag' := tag0;
    }
  }

  lemma {:induction false} NoWrites(log: seq<Op>, idx: seq<nat>, key: Key)
    requires Acts([], log, idx, key)
    ensures idx == []
  {
    assert !Mentions([], key);
  }

  lemma {:induction false} IdsLast(head: seq<PendingBatch>, b: PendingBatch)
    ensures Ids(head + [b]) == Ids(head) + {b.batch}
  {
    var out := head + [b];
    assert out[|head|] == b;
    forall id | id in Ids(head) ensures id in Ids(out) {
      var c :| c in head && c.batch == id;
      assert c in out;
    }
  }

  /** A batch under a new id, tagged with its writes. */
  lemma {:induction false} AddTag(head: seq<PendingBatch>, b: PendingBatch, tag: map<BatchId, seq<nat>>, idx: seq<nat>, log: seq<Op>, key: Key)
    requires Tagged(head, tag, log, key) && Acts(b.ops, log, idx, key) && forall i :: 0 <= i < |head| ==> head[i].batch != b.batch
    ensures var tag' := tag[b.batch := idx];
      Tagged(head + [b], tag', log, key) && Tags(head + [b], tag') == Tags(head, tag) + idx
  {
    hide Acts;
    var tag' := tag[b.batch := idx];
    forall i | 0 <= i < |head| ensures head[i].batch in tag {
      assert head[i].batch in tag;
    }
    TagsSame(head, head, tag, tag');
    TagsConcat(head, [b], tag');
    TagsOne(b, tag');
    assert Tagged([b], tag', log, key);
    TaggedConcat(head, [b], tag', log, key);
  }

  lemma {:induction false} KeepTag(head: seq<PendingBatch>, b: PendingBatch, tag: map<BatchId, seq<nat>>, log: seq<Op>, key: Key)
    requires Tagged(head, tag, log, key) && b.batch in tag && Acts(b.ops, log, tag[b.batch], key)
    ensures Tagged(head + [b], tag, log, key) && Tags(head + [b], tag) == Tags(head, tag) + tag[b.batch]
  {
    hide Acts;
    TagsConcat(head, [b], tag);
    TagsOne(b, tag);
    assert Tagged([b], tag, log, key);
    TaggedConcat(head, [b], tag, log, key);
  }

  lemma {:induction false} CoalesceKeeps(w: World, trace: seq<Batches>, gained: seq<bool>, fits: Op -> bool, w': World,
      row: Option<Row>, key: Key, tag: map<BatchId, seq<nat>>, done: nat)
    returns (tag': map<BatchId, seq<nat>>)
    requires Inv(w, row, key, tag, done) && Coalesce(w, trace, gained, fits, w')
    ensures Inv(w', row, key, tag', done)
  {
    hide Completes, Disciplined, Tags, Tagged, FoldOps, OpsOf, Acts, Known, QueueShape, FoldedInto, Rebuilt, Ids, TagList, TaggedQueue, Flat;
    var sent, unsent, out := w.pending[..w.flight], w.pending[w.flight..], w'.pending[w.flight..];
    var tail := trace[|trace| - 1];
    SplitTagged(w, tag, done, row, key);
    TagListFlat(unsent, tag, w.log, key);
    var idx := TagList(unsent, tag);
    var idx' := TraceTags(trace, gained, fits, idx, w.log, key);
    TaggedEach(tail, idx', w.log, key);
    OutDistinct(w'.pending, w.flight);
    KnownKeys(w.issued, w.taken, tag, done);
    tag' := RebuiltTags(unsent, tail, gained, out, w.issued, idx, idx', tag, w.log, key);
    assert idx'[..|tail|] == idx';
    RebuiltUnsent(unsent, tail, gained, out, w.issued);
    CoalescedLists(w, w', sent, unsent, out, tag, tag', done, key);
    CoalescedShape(w, w', out);
    CoalescedKnown(w.issued, w'.issued, w.taken, tag, tag', done, w'.pending, out);
    forall c | 0 <= c < |w'.stray| ensures Ready(done, w'.log, w'.stray[c], tag', key) {
      ReadyGrows(done, w.log, w.log, w.stray[c], tag, tag', key);
    }
  }

  lemma {:induction false} SplitTagged(w: World, tag: map<BatchId, seq<nat>>, done: nat, row: Option<Row>, key: Key)
    requires Inv(w, row, key, tag, done)
    ensures w.flight <= |w.pending| && Tagged(w.pending[..w.flight], tag, w.log, key) && Tagged(w.pending[w.flight..], tag, w.log, key)
  {
    Rejoin(w.pending, w.flight);
    TaggedConcat(w.pending[..w.flight], w.pending[w.flight..], tag, w.log, key);
  }

  lemma {:induction false} TaggedEach(tail: Batches, idx: seq<seq<nat>>, log: seq<Op>, key: Key)
    requires TaggedQueue(tail, idx, log, key)
    ensures |idx| == |tail| && forall p :: 0 <= p < |tail| ==> Acts(tail[p], log, idx[p], key)
  {
  }

  lemma {:induction false} OutDistinct(pending: seq<PendingBatch>, n: nat)
    requires n <= |pending|
    requires forall i, j {:trigger OtherId(pending[i], pending[j])} :: 0 <= i < j < |pending| ==> OtherId(pending[i], pending[j])
    ensures var out := pending[n..];
      forall i, j {:trigger OtherId(out[i], out[j])} :: 0 <= i < j < |out| ==> OtherId(out[i], out[j])
  {
    var out := pending[n..];
    forall i, j | 0 <= i < j < |out| ensures OtherId(out[i], out[j]) {
      assert OtherId(pending[n + i], pending[n + j]);
    }
  }

  lemma {:induction false} KnownKeys(issued: set<BatchId>, taken: set<BatchId>, tag: map<BatchId, seq<nat>>, done: nat)
    requires Known(issued, taken, tag, done)
    ensures tag.Keys <= issued
  {
  }

  lemma {:induction false} RebuiltUnsent(unsent: seq<PendingBatch>, tail: Batches, gained: seq<bool>, out: seq<PendingBatch>, issued0: set<BatchId>)
    requires |tail| <= |unsent| && |tail| <= |gained| && Rebuilt(unsent, tail, gained, out, issued0)
    ensures forall i :: 0 <= i < |out| ==> !out[i].inFlight
    decreases |tail|
  {
    if tail != [] {
      var k := |tail| - 1;
      if tail[k] == [] {
        RebuiltUnsent(unsent, tail[..k], gained, out, issued0);
      } else {
        RebuiltUnsent(unsent, tail[..k], gained, out[..|out| - 1], issued0);
      }
    }
  }

  /** Any list that ends in the unsent tail completes the log as it did. */
  lemma {:induction false} SwapTail(done: nat, log: seq<Op>, front: seq<PendingBatch>, unsent: seq<PendingBatch>, out: seq<PendingBatch>,
      tag: map<BatchId, seq<nat>>, tag': map<BatchId, seq<nat>>, key: Key)
    requires Completes(done, log, front + unsent, tag, key)
    requires forall id :: id in tag ==> id in tag' && tag'[id] == tag[id]
    requires Tagged(out, tag', log, key) && Tags(out, tag') == Tags(unsent, tag)
    ensures Completes(done, log, front + out, tag', key)
  {
    hide Tagged, Covered, Tags;
    ReadyConcat(done, log, front, unsent, tag, key);
    ReadyGrows(done, log, log, front, tag, tag', key);
    ReadyConcat(done, log, front, out, tag', key);
  }

  lemma {:induction false} CoalescedLists(w: World, w': World, sent: seq<PendingBatch>, unsent: seq<PendingBatch>, out: seq<PendingBatch>,
      tag: map<BatchId, seq<nat>>, tag': map<BatchId, seq<nat>>, done: nat, key: Key)
    requires w.flight <= |w.pending| && sent == w.pending[..w.flight] && unsent == w.pending[w.flight..]
    requires w.flight <= |w'.pending| && w'.pending[..w.flight] == sent && out == w'.pending[w.flight..]
    requires Completes(done, w.log, w.pending, tag, key) && Completes(done, w.log, w.up + unsent, tag, key)
    requires forall id :: id in tag ==> id in tag' && tag'[id] == tag[id]
    requires Tagged(out, tag', w.log, key) && Tags(out, tag') == Tags(unsent, tag)
    ensures Completes(done, w.log, w'.pending, tag', key) && Completes(done, w.log, w.up + out, tag', key)
  {
    hide Completes, Tagged, Tags;
    Rejoin(w.pending, w.flight);
    Rejoin(w'.pending, w.flight);
    SwapTail(done, w.log, sent, unsent, out, tag, tag', key);
    SwapTail(done, w.log, w.up, unsent, out, tag, tag', key);
  }

  lemma {:induction false} CoalescedShape(w: World, w': World, out: seq<PendingBatch>)
    requires QueueShape(w) && w'.flight == w.flight <= |w'.pending| && w'.pending[..w.flight] == w.pending[..w.flight]
    requires out == w'.pending[w.flight..] && forall i :: 0 <= i < |out| ==> !out[i].inFlight
    ensures QueueShape(w')
  {
    forall i | 0 <= i < |w'.pending| ensures w'.pending[i].inFlight <==> i < w'.flight {
      if i < w.flight {
        assert w'.pending[i] == w'.pending[..w.flight][i] == w.pending[i];
      } else {
        assert w'.pending[i] == out[i - w.flight];
      }
    }
  }

  lemma {:induction false} CoalescedKnown(issued: set<BatchId>, issued': set<BatchId>, taken: set<BatchId>, tag: map<BatchId, seq<nat>>, tag': map<BatchId, seq<nat>>,
      done: nat, pending: seq<PendingBatch>, out: seq<PendingBatch>)
    requires Known(issued, taken, tag, done) && issued <= issued' && Ids(pending) <= issued' && forall b :: b in out ==> b in pending
    requires forall id :: id in tag ==> id in tag' && tag'[id] == tag[id]
    requires tag'.Keys <= tag.Keys + Ids(out)
    ensures Known(issued', taken, tag', done)
  {
    forall id | id in tag' ensures id in issued' {
      assert id in tag'.Keys;
      if id in Ids(out) {
        var b :| b in out && b.batch == id;
        assert b in pending && id in Ids(pending);
      }
    }
  }

  // ── every run ─────────────────────────────────────────────────────────────

  lemma {:induction false} StepKeeps(w: World, w': World, row: Option<Row>, key: Key, fits: Op -> bool, tag: map<BatchId, seq<nat>>, done: nat)
    returns (tag': map<BatchId, seq<nat>>, done': nat)
    requires Inv(w, row, key, tag, done) && Step(w, w', key, fits)
    ensures Inv(w', row, key, tag', done')
  {
    hide Inv, Write, Coalesce, Take, Disconnect, RoomTakes, RoomTakesStray, Retire;
    tag', done' := tag, done;
    if ops, added :| Write(w, ops, added, w', key) {
      tag' := WriteKeeps(w, ops, added, w', row, key, tag, done);
    } else if trace, gained :| Coalesce(w, trace, gained, fits, w') {
      tag' := CoalesceKeeps(w, trace, gained, fits, w', row, key, tag, done);
    } else if Take(w, w') {
      TakeKeeps(w, w', row, key, tag, done);
    } else if n :| Disconnect(w, n, w') {
      DisconnectKeeps(w, n, w', row, key, tag, done);
    } else if RoomTakes(w, w', key) {
      done' := RoomTakesKeeps(w, w', row, key, tag, done);
    } else if c, again :| RoomTakesStray(w, c, again, w', key) {
      done' := RoomTakesStrayKeeps(w, c, again, w', row, key, tag, done);
    } else {
      var id :| Retire(w, id, w');
      RetireKeeps(w, id, w', row, key, tag, done);
    }
  }

  lemma {:induction false} StartInv(row: Option<Row>, key: Key)
    ensures Inv(Start(row), row, key, map[], 0)
  {
    var w := Start(row);
    assert w.up + w.pending[w.flight..] == [];
    assert w.log[..0] == [];
    NothingYet(key);
    hide Ready, FoldOps;
    assert FoldOps(row, [], key) == row by {
      FoldOpsUnmentioned(row, [], key);
    }
  }

  lemma {:induction false} NothingYet(key: Key)
    ensures Ready(0, [], [], map[], key) && Tags([], map[]) == []
  {
  }

  lemma {:induction false} RunKeeps(trace: seq<World>, row: Option<Row>, key: Key, fits: Op -> bool)
    returns (tag: map<BatchId, seq<nat>>, done: nat)
    requires Run(trace, row, key, fits)
    ensures Inv(trace[|trace| - 1], row, key, tag, done)
    decreases |trace|
  {
    hide Inv, Step, Start;
    if |trace| == 1 {
      StartInv(row, key);
      tag, done := map[], 0;
    } else {
      tag, done := RunKeeps(trace[..|trace| - 1], row, key, fits);
      tag, done := StepKeeps(trace[|trace| - 2], trace[|trace| - 1], row, key, fits, tag, done);
    }
  }

  /** At every moment of every run, from any starting row, the room's row is what some prefix of
  the writes, each applied once and in order, makes of it; and the queue, replayed over it, is
  every write applied once. */
  lemma {:induction false} ExactlyOnce(trace: seq<World>, row: Option<Row>, key: Key, fits: Op -> bool)
    requires Run(trace, row, key, fits)
    ensures var w := trace[|trace| - 1];
      && (exists n :: 0 <= n <= |w.log| && w.server == FoldOps(row, w.log[..n], key))
      && Fold(w.server, OpsOf(w.pending), key) == FoldOps(row, w.log, key)
  {
    var tag, done := RunKeeps(trace, row, key, fits);
    var w := trace[|trace| - 1];
    hide QueueShape, Known, Tags, Covered, Reach;
    TaggedFold(w.server, w.pending, tag, w.log, key);
    Replay(row, w.log, done, Tags(w.pending, tag), key);
    assert w.log[..|w.log|] == w.log;
  }

  /** Once the queue has drained, the room's row is every write applied exactly once. */
  lemma {:induction false} Drained(trace: seq<World>, row: Option<Row>, key: Key, fits: Op -> bool)
    requires Run(trace, row, key, fits) && trace[|trace| - 1].pending == []
    ensures trace[|trace| - 1].server == FoldOps(row, trace[|trace| - 1].log, key)
  {
    ExactlyOnce(trace, row, key, fits);
    assert OpsOf([]) == [];
  }

  // ── the replica's own methods take these steps ────────────────────────────

  /** What `EnqueueOps` promises of a queue is a local write followed by one coalescing. */
  lemma {:induction false} EnqueueIsTwoSteps(w: World, ops: seq<Op>, after: seq<PendingBatch>, issued: set<BatchId>, pushed: map<BatchId, seq<Op>>,
      trail: Trail, fits: Op -> bool, key: Key)
    returns (mid: World, w': World)
    requires QueueShape(w) && Disciplined(w.log + OnKey(ops, key), key)
    requires Enqueued(w.pending, w.issued, ops, after, issued, trail, fits) && QueueValid(after, issued, pushed)
    ensures Write(w, ops, trail.added, mid, key) && Coalesce(mid, trail.trace, trail.gained, fits, w')
    ensures w' == w.(log := w.log + OnKey(ops, key), pending := after, issued := issued)
  {
    hide OnKey, Disciplined, OpsOf, Chunks, FoldedInto, Rebuilt;
    mid := w.(log := w.log + OnKey(ops, key), pending := w.pending + trail.added, issued := trail.known);
    w' := mid.(pending := after, issued := issued);
    FlightIsUnsent(w);
    IdsWithin(after, issued, pushed);
    forall i, j | 0 <= i < j < |trail.added| ensures OtherId(trail.added[i], trail.added[j]) {
      assert Ahead(trail.added[i], trail.added[j]);
    }
    forall i, j | 0 <= i < j < |after| ensures OtherId(after[i], after[j]) {
      assert Ahead(after[i], after[j]);
    }
  }

  lemma {:induction false} FlightIsUnsent(w: World)
    requires QueueShape(w)
    ensures UnsentStart(w.pending) == w.flight
  {
    Rejoin(w.pending, w.flight);
    UnsentStartSplit(w.pending[..w.flight], w.pending[w.flight..]);
  }

  lemma {:induction false} IdsWithin(pending: seq<PendingBatch>, issued: set<BatchId>, pushed: map<BatchId, seq<Op>>)
    requires QueueValid(pending, issued, pushed)
    ensures Ids(pending) <= issued
  {
    forall i | 0 <= i < |pending| ensures pending[i].batch in issued {
      assert Own(pending[i], issued, pushed);
    }
  }
}
