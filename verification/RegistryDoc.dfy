/** The client's replica of the workspace registry (crates/doc/src/registry.rs:420-1015):
server rows, a queue of unacked batches replayed over them, and the rewriting of that queue. */
module RegistryDoc {
  import opened Wrappers
  import opened Seqs
  import opened Hlc
  import opened RegistryCore
  import opened MergeLaws
  import opened Queue
  import opened TailRewrite
  import opened RowTable
  import opened PendingQueue

  datatype StateOutcome = Delta | Replaced | Reseeded

  function WireId(id: BatchId, device: string): string {
    "b-" + EncodeHlc(id.ms, id.counter, device)
  }

  lemma {:induction false} WireIdInjective(a: BatchId, b: BatchId, device: string)
    requires WireId(a, device) == WireId(b, device)
    ensures a == b
  {
    assert EncodeHlc(a.ms, a.counter, device) == WireId(a, device)[2..] == EncodeHlc(b.ms, b.counter, device);
    EncodeInjective(a.ms, a.counter, device, b.ms, b.counter, device);
  }

  /** A replica's state but for its clock and its change counter. */
  datatype Replica = Replica(
    authoritative: Table, serverSeq: nat, gcFloor: nat, pending: seq<PendingBatch>, localOnly: bool, localWrites: bool,
    issued: set<BatchId>, pushed: map<BatchId, seq<Op>>)

  /** The ops joined the queue, whose unsent tail was rewritten, and nothing else moved; a local-only
  replica has them in its rows instead. */
  ghost predicate Queued(r: Replica, ops: seq<Op>, trail: Trail, fits: Op -> bool, r': Replica) {
    if ops == [] then r' == r
    else if r.localOnly then
      && r' == r.(authoritative := r'.authoritative, localWrites := true)
      && forall k :: RowAt(r'.authoritative, k) == FoldOps(RowAt(r.authoritative, k), ops, k)
    else
      && r' == r.(pending := r'.pending, issued := r'.issued)
      && Enqueued(r.pending, r.issued, ops, r'.pending, r'.issued, trail, fits) && Collapsed(trail.trace, trail.gained, fits)
  }

  class RegistryDoc {
    const deviceId: string
    /** The room's size check on a serialized op. */
    const fits: Op -> bool
    const clock: HlcClock
    var authoritative: Table
    var serverSeq: nat
    var gcFloor: nat
    var pending: seq<PendingBatch>
    var localOnly: bool
    var localWrites: bool
    /** Any change of rows or queued ops moves it up. */
    var generation: nat
    /** Every batch id ever minted. */
    ghost var issued: set<BatchId>
    /** What was handed to the transport under each id. */
    ghost var pushed: map<BatchId, seq<Op>>

    /** The id was minted from a clock reading no later than the present one. */
    predicate Minted(id: BatchId)
      reads clock
    {
      Reached(id.ms, id.counter)
    }

    /** (ms, counter) is no later than the present reading. */
    predicate Reached(ms: nat, counter: nat)
      reads clock
    {
      ms < clock.lastMs || (ms == clock.lastMs && counter <= clock.counter)
    }

    ghost predicate ClockValid()
      reads this, clock
    {
      clock.Valid() && forall id :: id in issued ==> Minted(id)
    }

    ghost predicate Valid()
      reads this, clock
    {
      && ClockValid()
      && Shipshape(authoritative)
      && pushed.Keys <= issued
      && (localOnly ==> pending == [])
      && QueueValid(pending, issued, pushed)
    }

    ghost function Model(): Replica
      reads this
    {
      Replica(authoritative, serverSeq, gcFloor, pending, localOnly, localWrites, issued, pushed)
    }

    /** The row this device displays, before hiding tombstones. */
    ghost function Display(key: Key): Option<Row>
      reads this
    {
      Fold(RowAt(authoritative, key), OpsOf(pending), key)
    }

    constructor (deviceId: string, fits: Op -> bool)
      ensures Valid() && fresh(clock) && this.deviceId == deviceId && this.fits == fits
      ensures authoritative == map[] && serverSeq == 0 && gcFloor == 0 && pending == [] && !localOnly
      ensures issued == {} && pushed == map[]
    {
      this.deviceId, this.fits := deviceId, fits;
      clock := new HlcClock();
      authoritative, serverSeq, gcFloor, pending := map[], 0, 0, [];
      localOnly, localWrites, generation := false, false, 0;
      issued, pushed := {}, map[];
    }

    /** A fresh batch id, from a fresh tick of the clock. */
    method FreshId() returns (id: BatchId)
      requires ClockValid()
      modifies clock, `issued
      ensures ClockValid() && Reached(old(clock.lastMs), old(clock.counter)) && id !in old(issued) && issued == old(issued) + {id}
    {
      var nowMs: int := *;
      var h := clock.Next(nowMs, deviceId);
      id := BatchId(clock.lastMs, clock.counter);
      assert WireId(id, deviceId) == "b-" + h;
      issued := issued + {id};
    }

    /** The rewritten tail as batches again: emptied ones go, ones that gained content take a
    fresh id, the rest keep theirs. */
    method Relabel(unsent: seq<PendingBatch>, tail: Batches, gained: seq<bool>) returns (out: seq<PendingBatch>)
      requires ClockValid() && pushed.Keys <= issued && QueueValid(unsent, issued, pushed) && |tail| == |gained| == |unsent|
      requires forall i :: 0 <= i < |tail| ==> !unsent[i].inFlight && Kept(unsent[i].ops, tail[i], gained[i])
      modifies `issued, clock
      ensures ClockValid() && Reached(old(clock.lastMs), old(clock.counter)) && old(issued) <= issued
      ensures OpsOf(out) == DropEmpty(tail)
      ensures Relabelled(unsent, |tail|, out, old(issued), issued, pushed)
      ensures Rebuilt(unsent, tail, gained, out, old(issued))
    {
      out := [];
      assert Rebuilt(unsent, [], gained, out, issued);
      hide QueueValid, Relabelled, OpsOf, Rebuilt;
      NoneRelabelled(unsent, issued, pushed);
      for i := 0 to |tail|
        invariant ClockValid() && Reached(old(clock.lastMs), old(clock.counter)) && old(issued) <= issued
        invariant OpsOf(out) == DropEmpty(tail[..i])
        invariant Relabelled(unsent, i, out, old(issued), issued, pushed)
        invariant Rebuilt(unsent, tail[..i], gained, out, old(issued))
      {
        RebuiltStep(unsent, tail[..i], tail[i], gained, out, old(issued));
        DropEmptyLast(tail[..i], tail[i]);
        assert tail[..i] + [tail[i]] == tail[..i + 1];
        RelabelSizes(unsent, i, old(issued), pushed);
        if tail[i] == [] {
          RelabelDrop(unsent, i, out, old(issued), issued, pushed);
        } else {
          var id := unsent[i].batch;
          ghost var issued1 := issued;
          if gained[i] {
            id := FreshId();
          }
          var b := PendingBatch(id, tail[i], false);
          RelabelStep(unsent, i, out, b, old(issued), issued1, issued, pushed);
          assert RebuiltAt(unsent[i], tail[i], gained[i], b, old(issued));
          OpsOfConcat(out, [b]);
          OpsOfOne(b);
          out := out + [b];
        }
      }
      assert tail[..|tail|] == tail;
    }

    /** The queue with repeated writes to one row collapsed across its unsent tail. */
    method Coalesced() returns (after: seq<PendingBatch>, folded: nat, ghost trace: seq<Batches>, ghost gained: seq<bool>)
      requires ClockValid() && QueueValid(pending, issued, pushed) && pushed.Keys <= issued
      modifies `issued, clock
      ensures ClockValid() && Reached(old(clock.lastMs), old(clock.counter)) && old(issued) <= issued
      ensures QueueValid(after, issued, pushed) && Requeued(pending, [], after, trace, fits)
      ensures Refolded(pending, UnsentStart(pending), after, trace, gained, fits, old(issued)) && Collapsed(trace, gained, fits)
      ensures forall i :: 0 <= i < |after| && after[i].batch in old(issued) ==> after[i] in pending
      ensures |pending| < 2 ==> folded == 0
      ensures folded == 0 ==> after == pending
    {
      hide QueueValid, Requeued, OpsOf, Relabelled, DropEmpty, Rebuilt, FoldedInto, Foldable, MayMove, StepAt;
      var start := UnsentStart(pending);
      var unsent := pending[start..];
      after, folded, trace, gained := pending, 0, [OpsOf(unsent)], seq(|unsent|, _ => false);
      if |unsent| >= 2 {
        var tail, grew, n;
        ghost var steps;
        tail, grew, n, steps := RewriteTail(OpsOf(unsent), fits);
        gained := grew;
        if n != 0 {
          folded, trace := n, steps;
          UnsentValid(pending, issued, pushed);
          var out := Relabel(unsent, tail, grew);
          RelabelledValid(pending, start, out, old(issued), issued, pushed);
          RelabelledRequeued(pending, out, trace, fits);
          after := pending[..start] + out;
          Spliced(pending, start, out);
          return;
        }
      }
      NothingGained(OpsOf(unsent), gained, fits);
      NonEmptyBatches(pending, issued, pushed);
      RefoldedSame(pending, start, trace, gained, fits, old(issued));
      Unrewritten(pending, OpsOf(unsent), trace, fits);
    }

    /** Rewrite the unsent tail, so that one op stands for writes to a row wherever one may. */
    method CoalesceUnsent() returns (folded: nat, ghost trace: seq<Batches>, ghost gained: seq<bool>)
      requires ClockValid() && QueueValid(pending, issued, pushed) && pushed.Keys <= issued
      modifies `pending, `issued, `generation, clock
      ensures ClockValid() && Reached(old(clock.lastMs), old(clock.counter)) && QueueValid(pending, issued, pushed) && old(issued) <= issued
      ensures Requeued(old(pending), [], pending, trace, fits)
      ensures Refolded(old(pending), UnsentStart(old(pending)), pending, trace, gained, fits, old(issued)) && Collapsed(trace, gained, fits)
      ensures forall i :: 0 <= i < |pending| && pending[i].batch in old(issued) ==> pending[i] in old(pending)
      ensures generation == old(generation) + if folded != 0 then 1 else 0
      ensures folded == 0 ==> pending == old(pending)
    {
      hide QueueValid, Requeued, Refolded, Collapsed;
      var after;
      after, folded, trace, gained := Coalesced();
      pending := after;
      if folded != 0 {
        generation := generation + 1;
      }
    }

    // ── local writes ────────────────────────────────────────────────────────

    /** Make one op permanent in the replica's own rows. */
    method FoldOp(op: Op)
      requires Shipshape(authoritative)
      modifies `authoritative
      ensures Shipshape(authoritative)
      ensures forall k :: RowAt(authoritative, k) == FoldOps(old(RowAt(authoritative, k)), [op], k)
    {
      var row := RowAt(authoritative, op.key);
      var applied := ApplyOp(row, op);
      forall k ensures FoldOps(RowAt(authoritative, k), [op], k) == if op.key == k then applied.row else RowAt(authoritative, k) {
        FoldSingle(RowAt(authoritative, k), op, k);
      }
      if applied.changed && applied.row.Some? {
        authoritative := authoritative[op.key := applied.row.value];
      } else {
        UnchangedIsSame(row, op);
      }
      ApplyKeepsWellFormed(row, op);
    }

    method FoldAllOps(ops: seq<Op>)
      requires Shipshape(authoritative)
      modifies `authoritative
      ensures Shipshape(authoritative)
      ensures forall k :: RowAt(authoritative, k) == FoldOps(old(RowAt(authoritative, k)), ops, k)
    {
      for i := 0 to |ops|
        invariant Shipshape(authoritative)
        invariant forall k :: RowAt(authoritative, k) == FoldOps(old(RowAt(authoritative, k)), ops[..i], k)
      {
        forall k ensures FoldOps(old(RowAt(authoritative, k)), ops[..i + 1], k)
          == FoldOps(FoldOps(old(RowAt(authoritative, k)), ops[..i], k), [ops[i]], k)
        {
          assert ops[..i + 1] == ops[..i] + [ops[i]];
          FoldOpsConcat(old(RowAt(authoritative, k)), ops[..i], [ops[i]], k);
        }
        FoldOp(ops[i]);
      }
      assert ops[..|ops|] == ops;
    }

    /** Queue the ops in batches of at most 400, each under a fresh id. */
    method PushChunks(ops: seq<Op>) returns (added: seq<PendingBatch>)
      requires ClockValid() && QueueValid(pending, issued, pushed) && pushed.Keys <= issued
      modifies `issued, clock
      ensures ClockValid() && Reached(old(clock.lastMs), old(clock.counter)) && old(issued) <= issued
      ensures OpsOf(added) == Chunks(ops) && QueueValid(pending + added, issued, pushed)
      ensures forall i :: 0 <= i < |added| ==> added[i].batch in issued
      ensures forall i :: 0 <= i < |added| ==> !added[i].inFlight && added[i].batch !in old(issued)
    {
      added := [];
      var rest := ops;
      assert pending + [] == pending && Chunks([]) == [];
      hide QueueValid, OpsOf, Chunks;
      while rest != []
        invariant ClockValid() && Reached(old(clock.lastMs), old(clock.counter)) && old(issued) <= issued
        invariant OpsOf(added) + Chunks(rest) == Chunks(ops)
        invariant QueueValid(pending + added, issued, pushed)
        invariant forall i :: 0 <= i < |added| ==> !added[i].inFlight && added[i].batch !in old(issued) && added[i].batch in issued
        decreases |rest|
      {
        var n := if |rest| > MAX_OPS_PER_BATCH then MAX_OPS_PER_BATCH else |rest|;
        ChunkHead(rest, n);
        Assoc(OpsOf(added), [rest[..n]], Chunks(rest[n..]));
        var b := PushChunk(rest[..n], added);
        added, rest := added + [b], rest[n..];
      }
    }

    method PushChunk(ops: seq<Op>, ghost added: seq<PendingBatch>) returns (b: PendingBatch)
      requires ClockValid() && pushed.Keys <= issued && QueueValid(pending + added, issued, pushed) && 1 <= |ops| <= MAX_OPS_PER_BATCH
      modifies `issued, clock
      ensures ClockValid() && Reached(old(clock.lastMs), old(clock.counter)) && issued == old(issued) + {b.batch}
      ensures b == PendingBatch(b.batch, ops, false) && b.batch !in old(issued)
      ensures QueueValid(pending + (added + [b]), issued, pushed) && OpsOf(added + [b]) == OpsOf(added) + [ops]
    {
      hide QueueValid;
      var id := FreshId();
      b := PendingBatch(id, ops, false);
      FreshBatchValid(pending + added, b, old(issued), issued, pushed);
      OpsOfConcat(added, [b]);
      OpsOfOne(b);
      assert pending + (added + [b]) == pending + added + [b];
    }

    /** Queue local writes, or fold them straight in when no server will ever ack them. Either
    way each displayed row takes the ops in order. */
    method EnqueueOps(ops: seq<Op>) returns (ghost trail: Trail)
      requires Valid()
      modifies this, clock
      ensures Valid() && Reached(old(clock.lastMs), old(clock.counter))
      ensures Queued(old(Model()), ops, trail, fits, Model())
      ensures forall k :: Display(k) == FoldOps(old(Display(k)), ops, k)
      ensures !localOnly && ops != [] ==> Requeued(old(pending), Chunks(ops), pending, trail.trace, fits)
      ensures generation >= old(generation) && (ops != [] <==> generation > old(generation))
    {
      trail := Trail([], {}, [], []);
      EmptyFolds(ops);
      hide QueueValid, Requeued, Fold, FoldOps, Chunks, Enqueued, OpsOf, Collapsed;
      if ops == [] {
        return;
      }
      generation := generation + 1;
      if localOnly {
        localWrites := true;
        FoldAllOps(ops);
        return;
      }
      ghost var before := pending;
      trail := QueueOps(ops);
      forall k ensures Display(k) == FoldOps(Fold(RowAt(authoritative, k), OpsOf(before), k), ops, k) {
        RequeuedFold(before, Chunks(ops), pending, trail.trace, fits, RowAt(authoritative, k), k);
        ChunksFold(Fold(RowAt(authoritative, k), OpsOf(before), k), ops, k);
      }
    }

    method QueueOps(ops: seq<Op>) returns (ghost trail: Trail)
      requires ClockValid() && QueueValid(pending, issued, pushed) && pushed.Keys <= issued
      modifies `pending, `issued, `generation, clock
      ensures ClockValid() && Reached(old(clock.lastMs), old(clock.counter)) && QueueValid(pending, issued, pushed) && old(issued) <= issued
      ensures Requeued(old(pending), Chunks(ops), pending, trail.trace, fits)
      ensures Enqueued(old(pending), old(issued), ops, pending, issued, trail, fits) && Collapsed(trail.trace, trail.gained, fits)
      ensures forall i :: 0 <= i < |pending| && pending[i].batch in old(issued) ==> pending[i] in old(pending)
      ensures generation >= old(generation)
    {
      hide QueueValid, Requeued, Chunks, Refolded, OpsOf, Collapsed;
      var chunks := PushChunks(ops);
      ghost var known := issued;
      AddedUnsent(pending, chunks);
      SplitValid(pending, chunks, issued, pushed);
      AddedAhead(chunks, issued, pushed);
      pending := pending + chunks;
      var folded;
      ghost var trace, gained;
      folded, trace, gained := CoalesceUnsent();
      trail := Trail(chunks, known, trace, gained);
      QueuedThenCoalesced(old(pending), chunks, pending, trace, fits);
    }

    /** A reading of this device's clock after (ms, counter), and no later than the present one. */
    ghost predicate Stamped(h: Clock, ms: nat, counter: nat)
      reads this, clock
    {
      exists m: nat, c: nat :: h == Position(EncodeHlc(m, c, deviceId)) && c <= 999_999 && Reached(m, c) && (ms < m || (ms == m && counter < c))
    }

    /** One local write, stamped with a fresh clock. */
    method Write(key: Key, op: OpKind, writes: map<string, Value>) returns (ghost written: Op, ghost trail: Trail)
      requires Valid() && op != Delete
      modifies this, clock
      ensures Valid() && Queued(old(Model()), [written], trail, fits, Model())
      ensures written == Op(key, op, Some(writes), written.hlc, None)
      ensures Stamped(written.hlc, old(clock.lastMs), old(clock.counter))
      ensures forall k :: Display(k) == FoldOps(old(Display(k)), [written], k)
      ensures generation > old(generation)
    {
      var nowMs: int := *;
      hide Shipshape, QueueValid, Queued;
      var h := clock.Next(nowMs, deviceId);
      var o := Op(key, op, Some(writes), Position(h), None);
      written := o;
      ghost var m, c := clock.lastMs, clock.counter;
      trail := EnqueueOps([o]);
      assert o.hlc == Position(EncodeHlc(m, c, deviceId)) && Reached(m, c) && c <= 999_999;
    }

    /** Deletes of several rows under one clock, queued as one unit. */
    method DeleteRows(keys: seq<Key>) returns (ghost deletes: seq<Op>, ghost trail: Trail)
      requires Valid()
      modifies this, clock
      ensures Valid() && Queued(old(Model()), deletes, trail, fits, Model())
      ensures |deletes| == |keys|
      ensures deletes != [] ==> Stamped(deletes[0].hlc, old(clock.lastMs), old(clock.counter))
      ensures forall i :: 0 <= i < |keys| ==> deletes[i] == Op(keys[i], Delete, None, deletes[i].hlc, None) && deletes[i].hlc == deletes[0].hlc
      ensures forall k :: Display(k) == FoldOps(old(Display(k)), deletes, k)
      ensures generation >= old(generation) && (keys != [] <==> generation > old(generation))
    {
      var nowMs: int := *;
      hide Shipshape, QueueValid, Queued;
      var h := clock.Next(nowMs, deviceId);
      var ops := seq(|keys|, i requires 0 <= i < |keys| => Op(keys[i], Delete, None, Position(h), None));
      deletes := ops;
      ghost var m, c := clock.lastMs, clock.counter;
      trail := EnqueueOps(ops);
      assert Position(h) == Position(EncodeHlc(m, c, deviceId)) && Reached(m, c) && c <= 999_999;
    }

    // ── local-only mode ─────────────────────────────────────────────────────

    /** Fold queued batches straight into the rows. */
    method FoldBatches(batches: seq<PendingBatch>)
      requires Shipshape(authoritative)
      modifies `authoritative
      ensures Shipshape(authoritative)
      ensures forall k :: RowAt(authoritative, k) == Fold(old(RowAt(authoritative, k)), OpsOf(batches), k)
    {
      EmptyFolds([]);
      assert batches[..0] == [];
      hide OpsOf, Fold, FoldOps, Shipshape;
      for i := 0 to |batches|
        invariant Shipshape(authoritative)
        invariant forall k :: RowAt(authoritative, k) == Fold(old(RowAt(authoritative, k)), OpsOf(batches[..i]), k)
      {
        forall k ensures Fold(old(RowAt(authoritative, k)), OpsOf(batches[..i + 1]), k)
          == FoldOps(Fold(old(RowAt(authoritative, k)), OpsOf(batches[..i]), k), batches[i].ops, k)
        {
          assert batches[..i + 1] == batches[..i] + [batches[i]];
          FoldNext(old(RowAt(authoritative, k)), batches[..i], batches[i], k);
        }
        FoldAllOps(batches[i].ops);
      }
      assert batches[..|batches|] == batches;
    }

    /** Entering the mode folds the queue away; leaving it after local writes re-seeds every row.
    Neither changes what is displayed. */
    method SetLocalOnly(on: bool) returns (ghost seeds: seq<Op>, ghost trail: Trail)
      requires Valid()
      modifies this, clock
      ensures Valid() && Framed(old(serverSeq), old(gcFloor), on, old(pushed))
      ensures on ==> pending == [] && issued == old(issued) && forall k :: Display(k) == old(Display(k))
      ensures on ==> localWrites == (old(localWrites) || old(pending) != [])
      ensures !on && old(localWrites) ==>
        SeedsOf(seeds, authoritative) && Queued(old(Model()).(localOnly := false, localWrites := false), seeds, trail, fits, Model())
      ensures !on && !old(localWrites) ==> Model() == old(Model()).(localOnly := false)
      ensures !on && old(localWrites) ==> forall k :: Display(k) == FoldSeed(old(Display(k)), authoritative, k)
      ensures !on && old(pending) == [] ==> forall k :: Display(k) == old(Display(k))
      ensures generation >= old(generation)
      ensures (if on then old(pending) != [] else seeds != []) <==> generation > old(generation)
    {
      trail, seeds := Trail([], {}, [], []), [];
      hide OpsOf, Fold, FoldOps, SeedsOf, Queued;
      EmptyFolds([]);
      if on {
        EnterLocal();
      } else if localWrites {
        hide QueueValid;
        localOnly, localWrites := false, false;
        var seed := CollectSeeds(authoritative);
        seeds := seed;
        trail := EnqueueOps(seed);
        QueuedRows(old(Model()).(localOnly := false, localWrites := false), seed, trail, fits, Model());
        forall k ensures Display(k) == FoldSeed(old(Display(k)), authoritative, k) {
          SeedsFold(seed, authoritative, old(Display(k)), k);
        }
        if old(pending) == [] {
          forall k ensures Display(k) == old(Display(k)) {
            assert old(Display(k)) == Fold(RowAt(authoritative, k), OpsOf([]), k);
            SeedsAtHome(authoritative, k);
          }
        }
      } else {
        localOnly := false;
      }
    }

    method EnterLocal()
      requires Valid()
      modifies this
      ensures Valid() && Framed(old(serverSeq), old(gcFloor), true, old(pushed)) && issued == old(issued)
      ensures pending == [] && localWrites == (old(localWrites) || old(pending) != [])
      ensures forall k :: Display(k) == old(Display(k))
      ensures generation == old(generation) + if old(pending) != [] then 1 else 0
    {
      EmptyFolds([]);
      EmptyValid(issued, pushed);
      hide OpsOf, Fold, FoldOps, Shipshape, QueueValid;
      localOnly := true;
      var taken := pending;
      pending := [];
      if taken != [] {
        generation, localWrites := generation + 1, true;
        FoldBatches(taken);
      }
    }

    // ── server frames ───────────────────────────────────────────────────────

    method PutAuthoritative(rows: seq<Row>)
      requires Shipshape(authoritative) && forall i :: 0 <= i < |rows| ==> WellFormed(rows[i])
      modifies `authoritative
      ensures Shipshape(authoritative) && authoritative == PutAll(old(authoritative), rows)
    {
      hide WellFormed;
      for i := 0 to |rows|
        invariant Shipshape(authoritative) && PutAll(authoritative, rows[i..]) == PutAll(old(authoritative), rows)
      {
        authoritative := authoritative[rows[i].key := rows[i]];
        assert rows[i..][1..] == rows[i + 1..];
      }
    }

    /** A hello's answer: a delta, a full replacement, or (the server being behind) neither;
    whatever rows only this replica holds are queued again as seeds. */
    method ApplyState(seqNo: nat, full: bool, gcFloor: nat, rows: seq<Row>)
      returns (outcome: StateOutcome, ghost seeds: seq<Op>, ghost trail: Trail)
      requires Valid() && forall i :: 0 <= i < |rows| ==> WellFormed(rows[i])
      modifies this, clock
      ensures Valid()
      ensures Framed(seqNo, gcFloor, old(localOnly), old(pushed))
      ensures !full ==> outcome == Delta && seeds == []
      ensures full && seqNo < old(serverSeq) ==> outcome == Reseeded && SeedsOf(seeds, old(authoritative))
      ensures full && seqNo >= old(serverSeq) ==>
        SeedsOf(seeds, old(authoritative) - PutAll(map[], rows).Keys) && outcome == if seeds == [] then Replaced else Reseeded
      ensures Queued(
        old(Model()).(authoritative := PutAll(if full && seqNo >= old(serverSeq) then map[] else old(authoritative), rows), serverSeq := seqNo, gcFloor := gcFloor),
        seeds, trail, fits, Model())
      ensures !localOnly ==> forall row, k :: Fold(row, OpsOf(pending), k) == FoldOps(Fold(row, OpsOf(old(pending)), k), seeds, k)
      ensures generation > old(generation)
    {
      generation := generation + 1;
      seeds, trail := [], Trail([], {}, [], []);
      EmptyFolds(seeds);
      PutAllShaped(authoritative, rows);
      PutAllShaped(map[], rows);
      hide QueueValid, Requeued, Fold, FoldOps, Chunks, SeedsOf, AllWellFormed;
      if !full {
        PutAuthoritative(rows);
        serverSeq, this.gcFloor := seqNo, gcFloor;
        return Delta, [], trail;
      }
      var seed;
      if seqNo < serverSeq {
        // The room has less than it once had: what is here may be the only copy.
        seed := CollectSeeds(authoritative);
        PutAuthoritative(rows);
        outcome := Reseeded;
      } else {
        var held := authoritative;
        authoritative := map[];
        PutAuthoritative(rows);
        seed := CollectSeeds(held - authoritative.Keys);
        outcome := if seed == [] then Replaced else Reseeded;
      }
      serverSeq, this.gcFloor := seqNo, gcFloor;
      seeds := seed;
      hide Queued;
      ghost var before := Model();
      trail := EnqueueOps(seed);
      QueuedRows(before, seed, trail, fits, Model());
      if !localOnly {
        QueuedReplays(before, seed, trail, fits, Model());
      }
    }

    /** A rows broadcast. The rows always apply; the cursor holds on a gap, and `ok` says so. */
    method ApplyRows(seqNo: nat, rows: seq<Row>) returns (ok: bool)
      requires Valid() && forall i :: 0 <= i < |rows| ==> WellFormed(rows[i])
      modifies this
      ensures Valid() && authoritative == PutAll(old(authoritative), rows)
      ensures ok <==> seqNo <= old(serverSeq) + 1
      ensures seqNo == old(serverSeq) + 1 ==> serverSeq == seqNo
      ensures seqNo != old(serverSeq) + 1 ==> serverSeq == old(serverSeq)
      ensures gcFloor == old(gcFloor) && localOnly == old(localOnly) && localWrites == old(localWrites)
      ensures pending == old(pending) && issued == old(issued) && pushed == old(pushed)
      ensures generation == old(generation) + 1
    {
      generation := generation + 1;
      PutAuthoritative(rows);
      if seqNo > serverSeq + 1 {
        return false;
      }
      if seqNo > serverSeq {
        serverSeq := seqNo;
      }
      return true;
    }

    /** Retire an acked batch. What is retired is exactly what was pushed under that id. */
    method AckBatch(batch: BatchId, seqNo: nat) returns (existed: bool)
      requires Valid()
      modifies this
      ensures Valid() && pending == Without(old(pending), batch) && Removed(old(pending), batch, pending)
      ensures existed <==> exists i :: 0 <= i < |old(pending)| && old(pending)[i].batch == batch
      ensures forall i :: 0 <= i < |old(pending)| && old(pending)[i].batch == batch && batch in pushed ==>
        old(pending)[i].ops == pushed[batch]
      ensures authoritative == old(authoritative) && issued == old(issued)
      ensures generation == old(generation) + if existed then 1 else 0
      ensures Framed(old(serverSeq), old(gcFloor), old(localOnly), old(pushed))
    {
      var before := |pending|;
      WithoutValid(pending, batch, issued, pushed);
      WithoutOne(pending, batch, issued, pushed);
      hide QueueValid, Without, Removed, Shipshape, OpsOf;
      WithoutMembers(pending, batch);
      OwnContents(pending, issued, pushed);
      hide *;
      pending := Without(pending, batch);
      existed := |pending| != before;
      if existed {
        generation := generation + 1;
      }
    }

    /** Everything not in flight on this connection, in queue order, now marked in flight. */
    method TakePushable() returns (out: seq<PendingBatch>)
      requires Valid()
      modifies `pending, `pushed
      ensures Valid() && |pending| == |old(pending)|
      ensures forall i :: 0 <= i < |pending| ==> pending[i] == old(pending)[i].(inFlight := true)
      ensures out == pending[UnsentStart(old(pending))..]
      ensures forall i :: 0 <= i < |pending| ==> (old(pending)[i].inFlight <==> i < UnsentStart(old(pending)))
      ensures Recorded(out, pushed, old(pushed))
    {
      var marked;
      hide QueueValid, PushedAfter, UnsentStart, Marked, Recorded, Shipshape;
      FlightPrefix(pending, issued, pushed);
      out, marked := MarkAll(pending);
      assert forall i :: 0 <= i < |marked| ==> marked[i] == pending[i].(inFlight := true);
      Pushed(pending, issued, pushed);
      pushed := PushedAfter(pending, pushed);
      pending := marked;
    }

    /** A lost connection takes every in-flight mark with it. */
    method MarkDisconnected()
      requires Valid()
      modifies `pending
      ensures Valid() && |pending| == |old(pending)|
      ensures forall i :: 0 <= i < |pending| ==> pending[i] == old(pending)[i].(inFlight := false)
    {
      ghost var before := pending;
      MarkedValid(before, false, issued, pushed, pushed);
      hide QueueValid;
      for i := 0 to |pending|
        invariant |pending| == |before|
        invariant forall j :: 0 <= j < |before| ==> pending[j] == if j < i then before[j].(inFlight := false) else before[j]
      {
        pending := pending[i := pending[i].(inFlight := false)];
      }
      assert pending == Marked(before, false);
    }

    // ── overlay reads ───────────────────────────────────────────────────────

    /** What is shown of a row: the server's, with the queue replayed over it. */
    method OverlayRow(key: Key) returns (row: Option<Row>)
      requires Valid()
      ensures row.Some? <==> Display(key).Some? && !Display(key).value.deleted
      ensures row.Some? ==> row == Display(key)
    {
      row := RowAt(authoritative, key);
      for i := 0 to |pending|
        invariant row == Fold(RowAt(authoritative, key), OpsOf(pending[..i]), key)
      {
        ghost var start := row;
        var ops := pending[i].ops;
        for j := 0 to |ops|
          invariant row == FoldOps(start, ops[..j], key)
        {
          assert ops[..j + 1] == ops[..j] + [ops[j]];
          FoldOpsConcat(start, ops[..j], [ops[j]], key);
          FoldSingle(row, ops[j], key);
          if ops[j].key == key {
            row := ApplyOp(row, ops[j]).row;
          }
        }
        assert ops[..|ops|] == ops;
        assert pending[..i + 1] == pending[..i] + [pending[i]];
        OpsOfConcat(pending[..i], [pending[i]]);
        FoldConcat(RowAt(authoritative, key), OpsOf(pending[..i]), [ops], key);
        FoldOne(start, ops, key);
        assert OpsOf([pending[i]]) == [ops];
      }
      assert pending[..|pending|] == pending;
      if row.Some? && row.value.deleted {
        row := None;
      }
    }

    ghost predicate Framed(serverSeq0: nat, gcFloor0: nat, localOnly0: bool, pushed0: map<BatchId, seq<Op>>)
      reads this
    {
      serverSeq == serverSeq0 && gcFloor == gcFloor0 && localOnly == localOnly0 && pushed == pushed0
    }
  }

  /** Local writes joined the queue in fresh batches, and its unsent tail was rewritten. */
  ghost predicate Enqueued(before: seq<PendingBatch>, issued0: set<BatchId>, ops: seq<Op>,
      after: seq<PendingBatch>, issued: set<BatchId>, trail: Trail, fits: Op -> bool)
  {
    && OpsOf(trail.added) == Chunks(ops) && issued0 <= trail.known <= issued
    && (forall i :: 0 <= i < |trail.added| ==> !trail.added[i].inFlight && trail.added[i].batch !in issued0 && trail.added[i].batch in trail.known)
    && (forall i, j {:trigger Ahead(trail.added[i], trail.added[j])} :: 0 <= i < j < |trail.added| ==> Ahead(trail.added[i], trail.added[j]))
    && UnsentStart(before) <= |before + trail.added|
    && Refolded(before + trail.added, UnsentStart(before), after, trail.trace, trail.gained, fits, trail.known)
  }

  lemma {:induction false} QueuedRows(r: Replica, ops: seq<Op>, trail: Trail, fits: Op -> bool, r': Replica)
    requires Queued(r, ops, trail, fits, r')
    ensures r'.serverSeq == r.serverSeq && r'.gcFloor == r.gcFloor && r'.localOnly == r.localOnly && r'.pushed == r.pushed
    ensures !r.localOnly ==> r'.authoritative == r.authoritative && r'.localWrites == r.localWrites
    ensures ops == [] ==> r' == r
  {
  }

  /** Whatever was rewritten on the way in, the new queue replays as the old one and the ops. */
  lemma {:induction false} QueuedReplays(r: Replica, ops: seq<Op>, trail: Trail, fits: Op -> bool, r': Replica)
    requires !r.localOnly && Queued(r, ops, trail, fits, r')
    requires ops != [] ==> Requeued(r.pending, Chunks(ops), r'.pending, trail.trace, fits)
    ensures forall row, k :: Fold(row, OpsOf(r'.pending), k) == FoldOps(Fold(row, OpsOf(r.pending), k), ops, k)
  {
    hide Fold, OpsOf, Chunks, Requeued;
    if ops != [] {
      forall row, k ensures Fold(row, OpsOf(r'.pending), k) == FoldOps(Fold(row, OpsOf(r.pending), k), ops, k) {
        RequeuedFold(r.pending, Chunks(ops), r'.pending, trail.trace, fits, row, k);
        ChunksFold(Fold(row, OpsOf(r.pending), k), ops, k);
      }
    }
  }

  /** How a write went into the queue: the batches it added, the ids issued by then, the rewriting
  that followed and the batches that gained content in it. */
  datatype Trail = Trail(added: seq<PendingBatch>, known: set<BatchId>, trace: seq<Batches>, gained: seq<bool>)

  lemma {:induction false} AddedAhead(added: seq<PendingBatch>, issued: set<BatchId>, pushed: map<BatchId, seq<Op>>)
    requires QueueValid(added, issued, pushed)
    ensures forall i, j {:trigger Ahead(added[i], added[j])} :: 0 <= i < j < |added| ==> Ahead(added[i], added[j])
  {
  }

  lemma {:induction false} AddedUnsent(before: seq<PendingBatch>, added: seq<PendingBatch>)
    requires forall i :: 0 <= i < |added| ==> !added[i].inFlight
    ensures UnsentStart(before + added) == UnsentStart(before)
  {
    UnsentStartAppend(before, added);
  }

  lemma {:induction false} EmptyFolds(ops: seq<Op>)
    ensures forall row, k :: Fold(row, OpsOf([]), k) == row
    ensures ops == [] ==> forall row, k :: FoldOps(row, ops, k) == row
  {
    assert OpsOf([]) == [];
  }
}
