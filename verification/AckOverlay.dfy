/** One socket between a replica and its room: a batch's rows are broadcast ahead of the ack that
retires it, so retiring an acked batch never changes what is displayed
(edge/src/registry-room.ts:408-420, 450-490 against crates/doc/src/registry.rs:740-768). */
module AckOverlay {
  import opened Wrappers
  import opened Hlc
  import opened RegistryCore
  import opened MergeLaws
  import opened Queue
  import opened QueueNotes
  import opened RowTable
  import opened PendingQueue
  import opened RegistryRoom
  import opened RegistryDoc
  import opened WriteReplay
  import opened OneOp

  datatype Down = Rows(rows: Table) | Ack(batch: PendingBatch)

  /** Both ends and the socket between them. The first `flight` queued batches have been pushed on
  this socket. */
  datatype Link = Link(
    server: Server, auth: Table, pending: seq<PendingBatch>, flight: nat,
    up: seq<PendingBatch>, down: seq<Down>)

  // ── steps ─────────────────────────────────────────────────────────────────

  ghost predicate QueueOk(pending: seq<PendingBatch>, flight: nat) {
    && flight <= |pending|
    && (forall i {:trigger pending[i]} :: 0 <= i < |pending| ==> (pending[i].inFlight <==> i < flight))
    && (forall i, j {:trigger Ahead(pending[i], pending[j])} :: 0 <= i < j < |pending| ==> Ahead(pending[i], pending[j]))
  }

  /** No batch of the queue would land again behind itself. */
  predicate SafeQueue(pending: seq<PendingBatch>) {
    forall i :: 0 <= i < |pending| ==> SafeBatch(pending[i].ops)
  }

  /** Local writes and the rewriting they cause: only the unsent tail changes. */
  ghost predicate Edit(l: Link, l': Link) {
    && l' == l.(pending := l'.pending) && QueueOk(l'.pending, l.flight)
    && l.flight <= |l.pending| && l'.pending[..l.flight] == l.pending[..l.flight]
  }

  ghost predicate Take(l: Link, l': Link) {
    var marked := Marked(l.pending, true);
    l.flight <= |l.pending| && l' == l.(pending := marked, flight := |l.pending|, up := l.up + marked[l.flight..])
  }

  function Broadcast(touched: Table): seq<Down> {
    if touched == map[] then [] else [Rows(touched)]
  }

  /** The room takes the next batch this replica pushed: rows first, then the ack. */
  ghost predicate RoomTakes(l: Link, touched: Table, l': Link) {
    && l.up != [] && RoomMerged(l.server, l.up[0].ops, l'.server, touched)
    && l' == l.(server := l'.server, up := l.up[1..], down := l.down + Broadcast(touched) + [Ack(l.up[0])])
  }

  ghost predicate OtherPush(l: Link, ops: seq<Op>, touched: Table, l': Link) {
    && RoomMerged(l.server, ops, l'.server, touched)
    && l' == l.(server := l'.server, down := l.down + Broadcast(touched))
  }

  ghost predicate Purge(l: Link, horizon: Clock, purged: Table, l': Link) {
    Collected(l.server, horizon, l'.server, purged) && l' == l.(server := l'.server)
  }

  ghost predicate DeliverRows(l: Link, l': Link) {
    l.down != [] && l.down[0].Rows? && l' == l.(auth := l.auth + l.down[0].rows, down := l.down[1..])
  }

  ghost predicate DeliverAck(l: Link, l': Link) {
    && l.down != [] && l.down[0].Ack?
    && l' == l.(pending := Without(l.pending, l.down[0].batch.batch), flight := if l.flight > 0 then l.flight - 1 else 0, down := l.down[1..])
  }

  ghost predicate Step(l: Link, l': Link) {
    || Edit(l, l') || Take(l, l')
    || (exists touched :: RoomTakes(l, touched, l'))
    || (exists ops, touched :: OtherPush(l, ops, touched, l'))
    || (exists horizon, purged :: Purge(l, horizon, purged, l'))
    || DeliverRows(l, l') || DeliverAck(l, l')
  }

  /** The socket once a hello's answer caught the replica up. */
  ghost predicate Opened(l: Link) {
    l.up == [] && l.down == [] && l.flight == 0 && QueueOk(l.pending, 0) && ServerValid(l.server) && Agreed(l.server.rows, l.auth)
  }

  ghost predicate Run(trace: seq<Link>)
    decreases |trace|
  {
    var n := |trace|;
    && n > 0
    && (if n == 1 then Opened(trace[0]) else Step(trace[n - 2], trace[n - 1]) && Run(trace[..n - 1]))
  }

  // ── the invariant ─────────────────────────────────────────────────────────

  /** What the room holds is held exactly; what it does not is absent or a tombstone. */
  predicate AgreedAt(server: Option<Row>, auth: Option<Row>) {
    if server.Some? then auth == server else auth == None || auth.value.deleted
  }

  ghost predicate Agreed(rows: Table, auth: Table) {
    forall k :: AgreedAt(RowAt(rows, k), RowAt(auth, k))
  }

  /** The replica's rows once every frame in flight has arrived. */
  function Arrived(auth: Table, down: seq<Down>): Table
    decreases |down|
  {
    if down == [] then auth
    else
      var front, last := down[..|down| - 1], down[|down| - 1];
      if last.Rows? then Arrived(auth, front) + last.rows else Arrived(auth, front)
  }

  function Acked(down: seq<Down>): seq<PendingBatch>
    decreases |down|
  {
    if down == [] then []
    else (if down[0].Ack? then [down[0].batch] else []) + Acked(down[1..])
  }

  /** Re-applying the batch changes no row. */
  ghost predicate Absorbed(rows: Table, ops: seq<Op>) {
    forall k :: FoldOps(RowAt(rows, k), ops, k) == RowAt(rows, k)
  }

  /** When an ack arrives, the rows that arrived before it already hold its batch. */
  ghost predicate AcksAbsorbed(auth: Table, down: seq<Down>) {
    forall i {:trigger down[i]} :: 0 <= i < |down| && down[i].Ack? ==> Absorbed(Arrived(auth, down[..i]), down[i].batch.ops)
  }

  ghost predicate Inv(l: Link) {
    && ServerValid(l.server) && QueueOk(l.pending, l.flight) && SafeQueue(l.pending)
    && Agreed(l.server.rows, Arrived(l.auth, l.down))
    && AcksAbsorbed(l.auth, l.down)
    && Acked(l.down) + l.up == l.pending[..l.flight]
  }

  lemma {:induction false} AckedConcat(x: seq<Down>, y: seq<Down>)
    ensures Acked(x + y) == Acked(x) + Acked(y)
    decreases |x|
  {
    if x == [] {
      assert x + y == y;
    } else {
      assert (x + y)[0] == x[0] && (x + y)[1..] == x[1..] + y;
      AckedConcat(x[1..], y);
    }
  }

  lemma {:induction false} ArrivedConcat(auth: Table, x: seq<Down>, y: seq<Down>)
    ensures Arrived(auth, x + y) == Arrived(Arrived(auth, x), y)
    decreases |y|
  {
    if y == [] {
      assert x + y == x;
    } else {
      assert (x + y)[..|x + y| - 1] == x + y[..|y| - 1] && (x + y)[|x + y| - 1] == y[|y| - 1];
      ArrivedConcat(auth, x, y[..|y| - 1]);
    }
  }

  lemma {:induction false} AckedBroadcast(touched: Table, auth: Table)
    ensures Acked(Broadcast(touched)) == [] && Arrived(auth, Broadcast(touched)) == auth + touched
  {
    if touched == map[] {
      assert auth + touched == auth;
    } else {
      var b := [Rows(touched)];
      assert b[1..] == [] && b[..|b| - 1] == [];
      assert Acked([]) == [] && Arrived(auth, []) == auth;
    }
  }

  lemma {:induction false} NotTouched(row: Option<Row>, ops: seq<Op>, key: Key)
    requires !Touches(row, ops, key)
    ensures FoldOps(row, ops, key) == row
    decreases |ops|
  {
    if ops != [] {
      if ops[0].key == key {
        UnchangedIsSame(row, ops[0]);
      }
      NotTouched(row, ops[1..], key);
    }
  }

  lemma {:induction false} UntouchedDead(ops: seq<Op>, key: Key, dead: Row)
    requires dead.deleted && !Touches(None, ops, key)
    ensures FoldOps(None, ops, key) == None && FoldOps(Some(dead), ops, key) == Some(dead)
    decreases |ops|
  {
    if ops != [] {
      UntouchedDead(ops[1..], key, dead);
    }
  }

  lemma {:induction false} BareAbsorbed(row: Option<Row>, stamped: Option<Row>, ops: seq<Op>, key: Key)
    requires FoldOps(row, ops, key) == row && Bare(row) == Bare(stamped)
    ensures Bare(FoldOps(stamped, ops, key)) == Bare(stamped)
  {
    BareFold(row, ops, key);
    BareFold(stamped, ops, key);
  }

  lemma {:induction false} FoldKeepsStamp(row: Option<Row>, ops: seq<Op>, key: Key)
    requires row.Some?
    ensures FoldOps(row, ops, key).Some? && FoldOps(row, ops, key).value.seqNo == row.value.seqNo
    decreases |ops|
  {
    if ops != [] {
      FoldKeepsStamp(if ops[0].key == key then ApplyOp(row, ops[0]).row else row, ops[1..], key);
    }
  }

  /** After the room merged a batch, a replica in agreement with it absorbs the batch. */
  lemma {:induction false} MergedAbsorbs(before: Option<Row>, ops: seq<Op>, k: Key, touched: Option<Row>, seqNo: nat, auth: Option<Row>)
    requires SafeBatch(ops) && PushedRow(before, ops, k, touched, seqNo) && AgreedAt(before, auth)
    ensures var after := if touched.Some? then touched else auth;
      FoldOps(after, ops, k) == after
  {
    SafeTwice(before, ops, k);
    if !Touches(before, ops, k) {
      NotTouched(before, ops, k);
    }
    if touched.Some? {
      BareAbsorbed(FoldOps(before, ops, k), touched, ops, k);
      FoldKeepsStamp(touched, ops, k);
    } else if before == None && auth.Some? {
      UntouchedDead(ops, k, auth.value);
    }
  }

  // ── every step keeps it ───────────────────────────────────────────────────

  /** A push by anyone, and the broadcast it causes. */
  lemma {:induction false} MergeKeeps(s: Server, ops: seq<Op>, s': Server, touched: Table, auth: Table, down: seq<Down>)
    requires ServerValid(s) && RoomMerged(s, ops, s', touched) && Agreed(s.rows, Arrived(auth, down)) && AcksAbsorbed(auth, down)
    ensures var down' := down + Broadcast(touched);
      && ServerValid(s') && Agreed(s'.rows, Arrived(auth, down')) && AcksAbsorbed(auth, down')
      && Acked(down') == Acked(down)
      && (SafeBatch(ops) ==> Absorbed(Arrived(auth, down'), ops))
  {
    var down' := down + Broadcast(touched);
    var rows := Arrived(auth, down);
    AckedConcat(down, Broadcast(touched));
    ArrivedConcat(auth, down, Broadcast(touched));
    AckedBroadcast(touched, rows);
    RowsMerge(s, ops, s', touched, rows);
    KeepAcks(auth, down, Broadcast(touched));
  }

  lemma {:induction false} RowsMerge(s: Server, ops: seq<Op>, s': Server, touched: Table, rows: Table)
    requires ServerValid(s) && RoomMerged(s, ops, s', touched) && Agreed(s.rows, rows)
    ensures ServerValid(s') && Agreed(s'.rows, rows + touched)
    ensures SafeBatch(ops) ==> Absorbed(rows + touched, ops)
  {
    MergedValid(s, ops, s', touched);
    hide FoldOps, SafeBatch, Touches, ServerValid, AllWellFormed;
    forall k ensures AgreedAt(RowAt(s'.rows, k), RowAt(rows + touched, k)) {
      assert AgreedAt(RowAt(s.rows, k), RowAt(rows, k));
    }
    if SafeBatch(ops) {
      forall k ensures FoldOps(RowAt(rows + touched, k), ops, k) == RowAt(rows + touched, k) {
        assert PushedRow(RowAt(s.rows, k), ops, k, RowAt(touched, k), s'.seqNo);
        assert AgreedAt(RowAt(s.rows, k), RowAt(rows, k));
        MergedAbsorbs(RowAt(s.rows, k), ops, k, RowAt(touched, k), s'.seqNo, RowAt(rows, k));
      }
    }
  }

  lemma {:induction false} KeepAcks(auth: Table, down: seq<Down>, more: seq<Down>)
    requires AcksAbsorbed(auth, down) && forall i :: 0 <= i < |more| ==> more[i].Rows?
    ensures AcksAbsorbed(auth, down + more)
  {
    hide Absorbed, Arrived;
    var all := down + more;
    forall i | 0 <= i < |all| && all[i].Ack? ensures Absorbed(Arrived(auth, all[..i]), all[i].batch.ops) {
      assert i < |down| && all[..i] == down[..i] && all[i] == down[i];
    }
  }

  lemma {:induction false} AckLast(auth: Table, down: seq<Down>, b: PendingBatch)
    ensures Arrived(auth, down + [Ack(b)]) == Arrived(auth, down) && Acked(down + [Ack(b)]) == Acked(down) + [b]
  {
    var all := down + [Ack(b)];
    assert all[..|all| - 1] == down;
    AckedConcat(down, [Ack(b)]);
    assert [Ack(b)][1..] == [] && Acked([Ack(b)]) == [b];
  }

  lemma {:induction false} AddAck(auth: Table, down: seq<Down>, b: PendingBatch)
    requires AcksAbsorbed(auth, down) && Absorbed(Arrived(auth, down), b.ops)
    ensures AcksAbsorbed(auth, down + [Ack(b)]) && Arrived(auth, down + [Ack(b)]) == Arrived(auth, down)
    ensures Acked(down + [Ack(b)]) == Acked(down) + [b]
  {
    var all := down + [Ack(b)];
    AckLast(auth, down, b);
    hide Absorbed, Arrived, Acked;
    forall i | 0 <= i < |all| && all[i].Ack? ensures Absorbed(Arrived(auth, all[..i]), all[i].batch.ops) {
      assert all[..i] == down[..i];
      if i < |down| {
        assert all[i] == down[i];
      } else {
        assert all[..i] == down;
      }
    }
  }

  lemma {:induction false} RoomTakesKeeps(l: Link, touched: Table, l': Link)
    requires Inv(l) && RoomTakes(l, touched, l')
    ensures Inv(l')
  {
    var b := l.up[0];
    var down := l.down + Broadcast(touched);
    NextIsSafe(l);
    hide RoomMerged, Agreed, AcksAbsorbed, Acked, Arrived, Absorbed, QueueOk, SafeQueue, SafeBatch, ServerValid, Broadcast;
    MergeKeeps(l.server, b.ops, l'.server, touched, l.auth, l.down);
    AddAck(l.auth, down, b);
    assert Acked(l.down) + [b] + l.up[1..] == Acked(l.down) + l.up;
  }

  lemma {:induction false} NextIsSafe(l: Link)
    requires Inv(l) && l.up != []
    ensures SafeBatch(l.up[0].ops)
  {
    var n := |Acked(l.down)|;
    hide Acked, SafeBatch, Agreed, AcksAbsorbed, ServerValid;
    assert (Acked(l.down) + l.up)[n] == l.up[0];
    assert l.pending[..l.flight][n] == l.pending[n];
  }

  lemma {:induction false} OtherPushKeeps(l: Link, ops: seq<Op>, touched: Table, l': Link)
    requires Inv(l) && OtherPush(l, ops, touched, l')
    ensures Inv(l')
  {
    MergeKeeps(l.server, ops, l'.server, touched, l.auth, l.down);
    hide RoomMerged, Agreed, AcksAbsorbed, Acked, Arrived, Absorbed, QueueOk, ServerValid;
  }

  lemma {:induction false} PurgeKeeps(l: Link, horizon: Clock, purged: Table, l': Link)
    requires Inv(l) && Purge(l, horizon, purged, l')
    ensures Inv(l')
  {
    CollectedValid(l.server, horizon, l'.server, purged);
    hide AcksAbsorbed, Acked, Arrived, Absorbed, QueueOk, SafeQueue, ServerValid;
    var rows := Arrived(l.auth, l.down);
    forall k ensures AgreedAt(RowAt(l'.server.rows, k), RowAt(rows, k)) {
      assert AgreedAt(RowAt(l.server.rows, k), RowAt(rows, k));
    }
  }

  lemma {:induction false} TakeKeeps(l: Link, l': Link)
    requires Inv(l) && Take(l, l')
    ensures Inv(l')
  {
    hide Agreed, AcksAbsorbed, Acked, Arrived, Absorbed, ServerValid, SafeBatch;
    var marked := Marked(l.pending, true);
    forall i, j | 0 <= i < j < |marked| ensures Ahead(marked[i], marked[j]) {
      assert Ahead(l.pending[i], l.pending[j]);
    }
    assert marked[..l.flight] == l.pending[..l.flight];
    assert marked[..|marked|] == marked[..l.flight] + marked[l.flight..];
  }

  lemma {:induction false} EditKeeps(l: Link, l': Link)
    requires Inv(l) && Edit(l, l') && SafeQueue(l'.pending)
    ensures Inv(l')
  {
    hide Agreed, AcksAbsorbed, Acked, Arrived, Absorbed, ServerValid, QueueOk, SafeQueue;
  }

  /** The first frame arrives. */
  lemma {:induction false} PopDown(auth: Table, down: seq<Down>, auth': Table)
    requires down != [] && AcksAbsorbed(auth, down)
    requires auth' == Arrived(auth, down[..1])
    ensures Arrived(auth', down[1..]) == Arrived(auth, down) && AcksAbsorbed(auth', down[1..])
  {
    var rest := down[1..];
    assert down == down[..1] + rest;
    ArrivedConcat(auth, down[..1], rest);
    hide Absorbed;
    forall i | 0 <= i < |rest| && rest[i].Ack? ensures Absorbed(Arrived(auth', rest[..i]), rest[i].batch.ops) {
      assert down[..i + 1] == down[..1] + rest[..i] && down[i + 1] == rest[i];
      ArrivedConcat(auth, down[..1], rest[..i]);
    }
  }

  lemma {:induction false} ArrivedOne(auth: Table, down: seq<Down>)
    requires down != []
    ensures Arrived(auth, down[..1]) == if down[0].Rows? then auth + down[0].rows else auth
  {
    assert down[..1] == [down[0]] && [down[0]][..0] == [];
    assert Arrived(auth, []) == auth;
  }

  lemma {:induction false} DeliverRowsKeeps(l: Link, l': Link)
    requires Inv(l) && DeliverRows(l, l')
    ensures Inv(l')
  {
    ArrivedOne(l.auth, l.down);
    PopDown(l.auth, l.down, l'.auth);
    assert Acked(l.down) == Acked(l'.down);
    hide Agreed, AcksAbsorbed, Acked, Arrived, Absorbed, ServerValid, QueueOk;
  }

  /** The batch acked is the one at the head of the queue. */
  lemma {:induction false} AckIsHead(l: Link)
    requires Inv(l) && l.down != [] && l.down[0].Ack?
    ensures l.flight > 0 && |l.pending| > 0 && l.pending[0] == l.down[0].batch
    ensures Without(l.pending, l.down[0].batch.batch) == l.pending[1..]
  {
    var b := l.down[0].batch;
    assert (Acked(l.down) + l.up)[0] == b;
    assert l.pending[..l.flight][0] == b;
    var rest := l.pending[1..];
    forall i | 0 <= i < |rest| ensures rest[i].batch != b.batch {
      assert Ahead(l.pending[0], l.pending[i + 1]);
    }
    WithoutAbsent(rest, b.batch);
  }

  lemma {:induction false} WithoutAbsent(pending: seq<PendingBatch>, batch: BatchId)
    requires forall i :: 0 <= i < |pending| ==> pending[i].batch != batch
    ensures Without(pending, batch) == pending
    decreases |pending|
  {
    if pending != [] {
      WithoutAbsent(pending[1..], batch);
    }
  }

  /** What is left of the queue when its head goes. */
  lemma {:induction false} TailOk(pending: seq<PendingBatch>, flight: nat)
    requires QueueOk(pending, flight) && SafeQueue(pending) && flight > 0
    ensures QueueOk(pending[1..], flight - 1) && SafeQueue(pending[1..])
    ensures pending[1..][..flight - 1] == pending[..flight][1..]
  {
    var rest := pending[1..];
    hide SafeBatch;
    forall i, j | 0 <= i < j < |rest| ensures Ahead(rest[i], rest[j]) {
      assert Ahead(pending[i + 1], pending[j + 1]);
    }
  }

  lemma {:induction false} AckedHead(down: seq<Down>, up: seq<PendingBatch>)
    requires down != [] && down[0].Ack?
    ensures (Acked(down) + up)[1..] == Acked(down[1..]) + up
  {
    assert Acked(down) == [down[0].batch] + Acked(down[1..]);
  }

  lemma {:induction false} DeliverAckKeeps(l: Link, l': Link)
    requires Inv(l) && DeliverAck(l, l')
    ensures Inv(l')
  {
    AckIsHead(l);
    ArrivedOne(l.auth, l.down);
    PopDown(l.auth, l.down, l'.auth);
    TailOk(l.pending, l.flight);
    AckedHead(l.down, l.up);
    hide Agreed, AcksAbsorbed, Acked, Arrived, Absorbed, ServerValid, SafeQueue, QueueOk, Without;
  }

  lemma {:induction false} StepKeeps(l: Link, l': Link)
    requires Inv(l) && Step(l, l') && SafeQueue(l'.pending)
    ensures Inv(l')
  {
    hide Inv;
    if Edit(l, l') {
      EditKeeps(l, l');
    } else if Take(l, l') {
      TakeKeeps(l, l');
    } else if touched :| RoomTakes(l, touched, l') {
      RoomTakesKeeps(l, touched, l');
    } else if ops, touched :| OtherPush(l, ops, touched, l') {
      OtherPushKeeps(l, ops, touched, l');
    } else if horizon, purged :| Purge(l, horizon, purged, l') {
      PurgeKeeps(l, horizon, purged, l');
    } else if DeliverRows(l, l') {
      DeliverRowsKeeps(l, l');
    } else {
      DeliverAckKeeps(l, l');
    }
  }

  lemma {:induction false} OpenedInv(l: Link)
    requires Opened(l) && SafeQueue(l.pending)
    ensures Inv(l)
  {
    assert Arrived(l.auth, l.down) == l.auth && Acked(l.down) == [];
  }

  /** Throughout the run. */
  predicate AlwaysSafe(trace: seq<Link>) {
    forall i :: 0 <= i < |trace| ==> SafeQueue(trace[i].pending)
  }

  lemma {:induction false} RunKeeps(trace: seq<Link>)
    requires Run(trace) && AlwaysSafe(trace)
    ensures Inv(trace[|trace| - 1])
    decreases |trace|
  {
    hide Inv, Opened, Step, SafeQueue;
    if |trace| == 1 {
      OpenedInv(trace[0]);
    } else {
      RunKeeps(trace[..|trace| - 1]);
      StepKeeps(trace[|trace| - 2], trace[|trace| - 1]);
    }
  }

  // ── no flicker ────────────────────────────────────────────────────────────

  /** In any run of safe batches, an ack retires the batch at the head of the queue and leaves every
  row's overlay, tombstones included, as it was. */
  lemma {:induction false} RetiringIsInvisible(trace: seq<Link>, l': Link, key: Key)
    requires Run(trace) && AlwaysSafe(trace) && DeliverAck(trace[|trace| - 1], l')
    ensures var l := trace[|trace| - 1];
      && l.pending != [] && l'.pending == l.pending[1..]
      && Fold(RowAt(l'.auth, key), OpsOf(l'.pending), key) == Fold(RowAt(l.auth, key), OpsOf(l.pending), key)
  {
    RunKeeps(trace);
    var l := trace[|trace| - 1];
    AckIsHead(l);
    var b := l.pending[0];
    assert l.down[..0] == [] && Arrived(l.auth, []) == l.auth;
    assert Absorbed(l.auth, b.ops);
    assert l.pending == [b] + l.pending[1..];
    OpsOfConcat([b], l.pending[1..]);
    OpsOfOne(b);
    FoldConcat(RowAt(l.auth, key), [b.ops], OpsOf(l.pending[1..]), key);
    FoldOne(RowAt(l.auth, key), b.ops, key);
  }

  // ── the replica's own writes ──────────────────────────────────────────────

  lemma {:induction false} FlightIsUnsent(pending: seq<PendingBatch>, flight: nat)
    requires QueueOk(pending, flight)
    ensures UnsentStart(pending) == flight
  {
    var n := UnsentStart(pending);
    assert n > 0 ==> pending[n - 1].inFlight;
    assert flight > 0 ==> pending[flight - 1].inFlight;
  }

  /** All batches of a queue, as op lists. */
  predicate AllSafe(q: Batches) {
    forall i :: 0 <= i < |q| ==> SafeBatch(q[i])
  }

  lemma {:induction false} ChunksSafe(ops: seq<Op>)
    requires SafeBatch(ops)
    ensures AllSafe(Chunks(ops))
    decreases |ops|
  {
    if |ops| > MAX_OPS_PER_BATCH {
      var x, y := ops[..MAX_OPS_PER_BATCH], ops[MAX_OPS_PER_BATCH..];
      forall i, j | 0 <= i < j < |x| ensures Later(x[i], x[j]) {
        assert Later(ops[i], ops[j]);
      }
      forall i, j | 0 <= i < j < |y| ensures Later(y[i], y[j]) {
        assert Later(ops[MAX_OPS_PER_BATCH + i], ops[MAX_OPS_PER_BATCH + j]);
      }
      ChunksSafe(y);
    }
  }

  /** Folding puts single ops, and nothing, in place of batches. */
  lemma {:induction false} RewritingSafe(trace: seq<Batches>, gained: seq<bool>, fits: Op -> bool)
    requires |trace| > 0 && FoldedInto(trace, gained, fits) && AllSafe(trace[0])
    ensures AllSafe(trace[|trace| - 1])
    decreases |trace|
  {
    var n := |trace|;
    if n > 1 {
      RewritingSafe(trace[..n - 1], gained, fits);
      var j: nat :| j < |gained| && gained[j] && StepAt(trace[n - 2], trace[n - 1], j, fits);
      StepSafe(trace[n - 2], trace[n - 1], j, fits);
    }
  }

  lemma {:induction false} StepSafe(q: Batches, q': Batches, j: nat, fits: Op -> bool)
    requires AllSafe(q) && StepAt(q, q', j, fits)
    ensures AllSafe(q')
  {
    var i: nat :| Foldable(q, i, j, fits) && MayMove(q, i, j) && q' == Folded(q, i, j, fits);
    hide MayMove, Later;
  }

  lemma {:induction false} SafeAsOps(pending: seq<PendingBatch>)
    ensures SafeQueue(pending) <==> AllSafe(OpsOf(pending))
  {
    hide SafeBatch;
    if AllSafe(OpsOf(pending)) {
      forall i | 0 <= i < |pending| ensures SafeBatch(pending[i].ops) {
        assert OpsOf(pending)[i] == pending[i].ops;
      }
    }
  }

  /** The first `n` batches are as they were; every other one is unsent and from that tail. */
  ghost predicate CutAt(before: seq<PendingBatch>, n: nat, after: seq<PendingBatch>, tail: Batches) {
    && n <= |before| && n <= |after| && after[..n] == before[..n]
    && (forall i :: 0 <= i < n ==> after[i] == before[i])
    && (forall i :: n <= i < |after| ==> !after[i].inFlight && after[i].ops in tail)
  }

  lemma {:induction false} CutAfter(before: seq<PendingBatch>, n: nat, added: seq<PendingBatch>, after: seq<PendingBatch>, tail: Batches)
    requires n <= |before| && n <= |after| && after[..n] == (before + added)[..n]
    requires forall i :: 0 <= i < |after[n..]| ==> !after[n..][i].inFlight && after[n..][i].ops in tail
    ensures CutAt(before, n, after, tail)
  {
    assert (before + added)[..n] == before[..n];
    forall i | 0 <= i < n ensures after[i] == before[i] {
      assert after[..n][i] == before[..n][i];
    }
    forall i | n <= i < |after| ensures !after[i].inFlight && after[i].ops in tail {
      assert after[n..][i - n] == after[i];
    }
  }

  /** Queueing ops as `enqueue_ops` does, on a connected replica, is an edit; and if they are safe
  as a batch, the queue it leaves is safe if the one it found was. */
  lemma {:induction false} EnqueuedIsEdit(l: Link, issued0: set<BatchId>, ops: seq<Op>, after: seq<PendingBatch>,
      issued: set<BatchId>, pushed: map<BatchId, seq<Op>>, trail: Trail, fits: Op -> bool)
    requires QueueOk(l.pending, l.flight) && QueueValid(after, issued, pushed)
    requires Enqueued(l.pending, issued0, ops, after, issued, trail, fits)
    ensures Edit(l, l.(pending := after))
    ensures SafeQueue(l.pending) && SafeBatch(ops) ==> SafeQueue(after)
  {
    var n := l.flight;
    FlightIsUnsent(l.pending, n);
    EnqueuedCut(l.pending, issued0, ops, after, issued, trail, fits);
    if SafeQueue(l.pending) && SafeBatch(ops) {
      EnqueuedSafe(l.pending, issued0, ops, after, issued, trail, fits);
    }
    hide Enqueued, SafeQueue, SafeBatch, AllSafe, UnsentStart, Own;
  }

  lemma {:induction false} EnqueuedCut(before: seq<PendingBatch>, issued0: set<BatchId>, ops: seq<Op>, after: seq<PendingBatch>,
      issued: set<BatchId>, trail: Trail, fits: Op -> bool)
    requires Enqueued(before, issued0, ops, after, issued, trail, fits)
    ensures |trail.trace| > 0 && CutAt(before, UnsentStart(before), after, trail.trace[|trail.trace| - 1])
  {
    var n := UnsentStart(before);
    var tail := trail.trace[|trail.trace| - 1];
    hide Rebuilt, FoldedInto, UnsentStart, OpsOf, Chunks;
    RebuiltMembers((before + trail.added)[n..], tail, trail.gained, after[n..], trail.known);
    CutAfter(before, n, trail.added, after, tail);
  }

  lemma {:induction false} EnqueuedSafe(before: seq<PendingBatch>, issued0: set<BatchId>, ops: seq<Op>, after: seq<PendingBatch>,
      issued: set<BatchId>, trail: Trail, fits: Op -> bool)
    requires Enqueued(before, issued0, ops, after, issued, trail, fits) && SafeQueue(before) && SafeBatch(ops)
    ensures SafeQueue(after)
  {
    var n := UnsentStart(before);
    EnqueuedCut(before, issued0, ops, after, issued, trail, fits);
    hide UnsentStart, Rebuilt, FoldedInto, SafeBatch, SafeQueue, AllSafe, CutAt, OpsOf, Chunks;
    TailSafe(before, n, ops, trail, fits);
    StillSafe(before, n, after, trail.trace[|trail.trace| - 1]);
  }

  lemma {:induction false} StillSafe(before: seq<PendingBatch>, n: nat, after: seq<PendingBatch>, tail: Batches)
    requires CutAt(before, n, after, tail) && SafeQueue(before) && AllSafe(tail)
    ensures SafeQueue(after)
  {
    hide SafeBatch;
  }

  lemma {:induction false} TailSafe(pending: seq<PendingBatch>, n: nat, ops: seq<Op>, trail: Trail, fits: Op -> bool)
    requires n <= |pending| && SafeQueue(pending) && SafeBatch(ops) && OpsOf(trail.added) == Chunks(ops)
    requires |trail.trace| > 0 && trail.trace[0] == OpsOf((pending + trail.added)[n..]) && FoldedInto(trail.trace, trail.gained, fits)
    ensures AllSafe(trail.trace[|trail.trace| - 1])
  {
    ChunksSafe(ops);
    var unsent := pending[n..];
    assert (pending + trail.added)[n..] == unsent + trail.added;
    SafeRest(pending, n);
    SafeAsOps(unsent);
    OpsOfConcat(unsent, trail.added);
    hide SafeQueue, SafeBatch, FoldedInto, Chunks, OpsOf;
    assert AllSafe(OpsOf(unsent) + OpsOf(trail.added));
    RewritingSafe(trail.trace, trail.gained, fits);
  }

  lemma {:induction false} SafeRest(pending: seq<PendingBatch>, n: nat)
    requires n <= |pending| && SafeQueue(pending)
    ensures SafeQueue(pending[n..])
  {
    hide SafeBatch;
  }

  lemma {:induction false} OneIsSafe(op: Op)
    ensures SafeBatch([op])
  {
  }

  lemma {:induction false} DeletesAreSafe(ops: seq<Op>)
    requires forall i :: 0 <= i < |ops| ==> ops[i].op == Delete
    ensures SafeBatch(ops)
  {
  }

  lemma {:induction false} SeedsAreSafe(seeds: seq<Op>, rows: Table)
    requires SeedsOf(seeds, rows)
    ensures SafeBatch(seeds)
  {
    forall i, j | 0 <= i < j < |seeds| ensures Later(seeds[i], seeds[j]) {
      assert seeds[i].key != seeds[j].key;
    }
  }

  /** A local write of a connected replica is an edit that keeps its queue safe. */
  method EditByWrite(doc: RegistryDoc, ghost l: Link, key: Key, op: OpKind, writes: map<string, Value>) returns (ghost l': Link)
    requires doc.Valid() && !doc.localOnly && op != Delete
    requires l.pending == doc.pending && QueueOk(l.pending, l.flight) && SafeQueue(l.pending)
    modifies doc, doc.clock
    ensures doc.Valid() && Edit(l, l') && l'.pending == doc.pending && SafeQueue(l'.pending)
  {
    hide Edit, QueueOk, SafeQueue, SafeBatch, Enqueued, QueueValid, Shipshape;
    ghost var written, trail;
    written, trail := doc.Write(key, op, writes);
    OneIsSafe(written);
    EnqueuedIsEdit(l, old(doc.issued), [written], doc.pending, doc.issued, doc.pushed, trail, doc.fits);
    l' := l.(pending := doc.pending);
  }

  /** So is a cascade of deletes, repeated keys and all. */
  method EditByDeletes(doc: RegistryDoc, ghost l: Link, keys: seq<Key>) returns (ghost l': Link)
    requires doc.Valid() && !doc.localOnly && keys != []
    requires l.pending == doc.pending && QueueOk(l.pending, l.flight) && SafeQueue(l.pending)
    modifies doc, doc.clock
    ensures doc.Valid() && Edit(l, l') && l'.pending == doc.pending && SafeQueue(l'.pending)
  {
    hide Edit, QueueOk, SafeQueue, SafeBatch, Enqueued, QueueValid, Shipshape;
    ghost var deletes, trail;
    deletes, trail := doc.DeleteRows(keys);
    DeletesAreSafe(deletes);
    EnqueuedIsEdit(l, old(doc.issued), deletes, doc.pending, doc.issued, doc.pushed, trail, doc.fits);
    l' := l.(pending := doc.pending);
  }

  // ── where a batch would flicker ───────────────────────────────────────────

  /** A run whose queue never holds anything but batches of these ops, and an ack that changes what
  is shown of the row. */
  ghost predicate Flickers(trace: seq<Link>, l': Link, ops: seq<Op>, key: Key) {
    && Run(trace) && DeliverAck(trace[|trace| - 1], l')
    && OnlyBatch(trace, ops)
    && var l := trace[|trace| - 1];
       Fold(RowAt(l'.auth, key), OpsOf(l'.pending), key) != Fold(RowAt(l.auth, key), OpsOf(l.pending), key)
  }

  ghost predicate MayFlicker(ops: seq<Op>, key: Key) {
    exists trace, l' :: Flickers(trace, l', ops, key)
  }

  lemma {:induction false} SafeNeverFlickers(ops: seq<Op>, key: Key)
    requires SafeBatch(ops)
    ensures !MayFlicker(ops, key)
  {
    forall trace, l' | Flickers(trace, l', ops, key) ensures false {
      RetiringIsInvisible(trace, l', key);
    }
  }

  lemma {:induction false} RunMore(trace: seq<Link>, l: Link)
    requires Run(trace) && Step(trace[|trace| - 1], l)
    ensures Run(trace + [l])
  {
    assert (trace + [l])[..|trace|] == trace;
  }

  /** What the room makes of a batch on one row. */
  function TouchedBy(start: Option<Row>, ops: seq<Op>, key: Key, seqNo: nat): Table {
    var after := FoldOps(start, ops, key);
    if Touches(start, ops, key) && after.Some? then map[key := after.value.(seqNo := seqNo)] else map[]
  }

  lemma {:induction false} TouchedRow(start: Option<Row>, ops: seq<Op>, key: Key)
    requires start.Some? ==> start.value.key == key
    ensures var after := FoldOps(start, ops, key);
      (after.Some? ==> after.value.key == key) && (Touches(start, ops, key) ==> after.Some?)
    decreases |ops|
  {
    if ops != [] {
      BareApply(start, ops[0]);
      var next := if ops[0].key == key then ApplyOp(start, ops[0]).row else start;
      TouchedRow(next, ops[1..], key);
      if next.Some? {
        FoldKeepsStamp(next, ops[1..], key);
      }
    }
  }

  lemma {:induction false} RoomTakesAlone(s: Server, ops: seq<Op>, key: Key)
    requires forall k :: k in s.rows ==> k == key && s.rows[k].key == key
    requires forall i :: 0 <= i < |ops| ==> ops[i].key == key
    ensures var touched := TouchedBy(RowAt(s.rows, key), ops, key, s.seqNo + 1);
      RoomMerged(s, ops, Server(s.rows + touched, if touched == map[] then s.seqNo else s.seqNo + 1, s.gcFloor), touched)
  {
    var touched := TouchedBy(RowAt(s.rows, key), ops, key, s.seqNo + 1);
    TouchedRow(RowAt(s.rows, key), ops, key);
    forall k ensures PushedRow(RowAt(s.rows, k), ops, k, RowAt(touched, k), if touched == map[] then s.seqNo else s.seqNo + 1) {
      if k != key {
        assert !Mentions(ops, k);
        Unmentioned(RowAt(s.rows, k), ops, k);
      }
    }
  }

  /** The room with one row, if any, and what a batch on that row makes of it. */
  function After(s: Server, ops: seq<Op>, key: Key): Server {
    var touched := TouchedBy(RowAt(s.rows, key), ops, key, s.seqNo + 1);
    Server(s.rows + touched, if touched == map[] then s.seqNo else s.seqNo + 1, s.gcFloor)
  }

  function Alone(s: Server, auth: Table, sent: PendingBatch, up: seq<PendingBatch>, down: seq<Down>): Link {
    Link(s, auth, [sent], 1, up, down)
  }

  /** Pushed and taken. */
  lemma {:induction false} AloneTaken(s: Server, sent: PendingBatch, key: Key) returns (trace: seq<Link>)
    requires ServerValid(s) && (forall k :: k in s.rows ==> k == key) && sent.inFlight
    requires forall i :: 0 <= i < |sent.ops| ==> sent.ops[i].key == key
    ensures Run(trace) && OnlyBatch(trace, sent.ops)
    ensures var touched := TouchedBy(RowAt(s.rows, key), sent.ops, key, s.seqNo + 1);
      trace[|trace| - 1] == Alone(After(s, sent.ops, key), s.rows, sent, [], Broadcast(touched) + [Ack(sent)])
  {
    var touched := TouchedBy(RowAt(s.rows, key), sent.ops, key, s.seqNo + 1);
    var l0 := Link(s, s.rows, [sent.(inFlight := false)], 0, [], []);
    var l1 := Alone(s, s.rows, sent, [sent], []);
    var l2 := Alone(After(s, sent.ops, key), s.rows, sent, [], Broadcast(touched) + [Ack(sent)]);
    TakenAlone(s, sent);
    MergedAlone(s, sent, key);
    assert OnlyBatch([l0] + [l1] + [l2], sent.ops);
    hide FoldOps, Touches, ServerValid, TouchedBy, After, Opened, Take, RoomTakes, OnlyBatch;
    assert Run([l0]);
    RunMore([l0], l1);
    RunMore([l0] + [l1], l2);
    trace := [l0] + [l1] + [l2];
  }

  lemma {:induction false} TakenAlone(s: Server, sent: PendingBatch)
    requires ServerValid(s) && sent.inFlight
    ensures var l0 := Link(s, s.rows, [sent.(inFlight := false)], 0, [], []);
      Opened(l0) && Take(l0, Alone(s, s.rows, sent, [sent], []))
  {
    hide ServerValid;
    var b := sent.(inFlight := false);
    assert Marked([b], true) == [sent] && [] + [sent][0..] == [sent];
  }

  lemma {:induction false} MergedAlone(s: Server, sent: PendingBatch, key: Key)
    requires ServerValid(s) && forall k :: k in s.rows ==> k == key
    requires forall i :: 0 <= i < |sent.ops| ==> sent.ops[i].key == key
    ensures var touched := TouchedBy(RowAt(s.rows, key), sent.ops, key, s.seqNo + 1);
      RoomTakes(Alone(s, s.rows, sent, [sent], []), touched,
        Alone(After(s, sent.ops, key), s.rows, sent, [], Broadcast(touched) + [Ack(sent)]))
  {
    RoomTakesAlone(s, sent.ops, key);
    var touched := TouchedBy(RowAt(s.rows, key), sent.ops, key, s.seqNo + 1);
    hide FoldOps, Touches, RoomMerged, TouchedBy;
    assert [sent][1..] == [] && [] + Broadcast(touched) + [Ack(sent)] == Broadcast(touched) + [Ack(sent)];
  }

  /** No queue of the run holds anything but batches of these ops. */
  predicate OnlyBatch(trace: seq<Link>, ops: seq<Op>) {
    forall i, j :: 0 <= i < |trace| && 0 <= j < |trace[i].pending| ==> trace[i].pending[j].ops == ops
  }

  /** The shortest run in which a batch is pushed, taken, broadcast and acked, and nothing else
  happens. */
  lemma {:induction false} AloneRun(s: Server, ops: seq<Op>, key: Key) returns (trace: seq<Link>, l': Link)
    requires ServerValid(s) && (forall k :: k in s.rows ==> k == key)
    requires forall i :: 0 <= i < |ops| ==> ops[i].key == key
    ensures Run(trace) && DeliverAck(trace[|trace| - 1], l') && OnlyBatch(trace, ops)
    ensures var l := trace[|trace| - 1];
      && l'.auth == l.auth && OpsOf(l.pending) == [ops] && l'.pending == []
      && Bare(RowAt(l.auth, key)) == Bare(FoldOps(RowAt(s.rows, key), ops, key))
  {
    var sent := PendingBatch(BatchId(0, 0), ops, true);
    var touched := TouchedBy(RowAt(s.rows, key), ops, key, s.seqNo + 1);
    trace := AloneTaken(s, sent, key);
    ShownAfter(s, ops, key);
    OpsOfOne(sent);
    hide *;
    trace, l' := AloneDelivered(trace, After(s, ops, key), s.rows, sent, touched);
  }

  /** The broadcast, if there is one, and then the ack arrive. */
  lemma {:induction false} AloneDelivered(taken: seq<Link>, s: Server, auth: Table, sent: PendingBatch, touched: Table)
    returns (trace: seq<Link>, l': Link)
    requires Run(taken) && OnlyBatch(taken, sent.ops)
    requires taken[|taken| - 1] == Alone(s, auth, sent, [], Broadcast(touched) + [Ack(sent)])
    ensures Run(trace) && OnlyBatch(trace, sent.ops)
    ensures trace[|trace| - 1] == Alone(s, auth + touched, sent, [], [Ack(sent)])
    ensures l' == Link(s, auth + touched, [], 0, [], []) && DeliverAck(trace[|trace| - 1], l')
  {
    trace := taken;
    var l := Alone(s, auth + touched, sent, [], [Ack(sent)]);
    l' := Link(s, auth + touched, [], 0, [], []);
    AloneAcked(s, auth + touched, sent);
    hide Run, DeliverAck;
    if touched != map[] {
      assert (Broadcast(touched) + [Ack(sent)])[1..] == [Ack(sent)];
      assert DeliverRows(taken[|taken| - 1], l);
      RunMore(taken, l);
      OnlyMore(taken, l, sent.ops);
      trace := taken + [l];
    } else {
      assert auth + touched == auth && Broadcast(touched) + [Ack(sent)] == [Ack(sent)];
    }
  }

  lemma {:induction false} AloneAcked(s: Server, auth: Table, sent: PendingBatch)
    ensures DeliverAck(Alone(s, auth, sent, [], [Ack(sent)]), Link(s, auth, [], 0, [], []))
  {
    assert [sent][1..] == [] && [Ack(sent)][1..] == [];
    assert Without([sent], sent.batch) == Without([], sent.batch) == [];
  }

  lemma {:induction false} OnlyMore(trace: seq<Link>, l: Link, ops: seq<Op>)
    requires OnlyBatch(trace, ops) && forall j :: 0 <= j < |l.pending| ==> l.pending[j].ops == ops
    ensures OnlyBatch(trace + [l], ops)
  {
  }

  /** What the replica then holds of the row is what the room made of it. */
  lemma {:induction false} ShownAfter(s: Server, ops: seq<Op>, key: Key)
    requires ServerValid(s)
    ensures var touched := TouchedBy(RowAt(s.rows, key), ops, key, s.seqNo + 1);
      Bare(RowAt(s.rows + touched, key)) == Bare(FoldOps(RowAt(s.rows, key), ops, key))
  {
    var start := RowAt(s.rows, key);
    TouchedRow(start, ops, key);
    if !Touches(start, ops, key) {
      NotTouched(start, ops, key);
    }
  }

  /** Two writes of one row in one batch: retiring it never flickers exactly when the first is
  replay-safe behind the second. */
  lemma {:induction false} FlickerIff(a: Op, b: Op)
    requires a.key == b.key
    ensures MayFlicker([a, b], a.key) <==> !ReplaySafe(a, b)
  {
    var ops := [a, b];
    if ReplaySafe(a, b) {
      assert SafeBatch(ops);
      SafeNeverFlickers(ops, a.key);
    } else {
      UnsafeFlickers(a, b);
    }
  }

  lemma {:induction false} UnsafeFlickers(a: Op, b: Op)
    requires a.key == b.key && !ReplaySafe(a, b)
    ensures MayFlicker([a, b], a.key)
  {
    var ops, key := [a, b], a.key;
    var start := Untaken(a, b);
    var rows := if start.Some? then map[key := start.value.(seqNo := 1)] else map[];
    var s := Server(rows, 1, 0);
    var trace, l' := AloneRun(s, ops, key);
    var l := trace[|trace| - 1];
    var shown := RowAt(l.auth, key);
    assert Bare(RowAt(rows, key)) == start;
    TwoFold(start, a, b);
    BareFold(RowAt(rows, key), ops, key);
    var done := FoldOps(start, ops, key);
    assert Bare(shown) == done by {
      assert FoldOps(Bare(RowAt(rows, key)), ops, key) == done;
    }
    ReplayReturns(a, b);
    TwoFold(done, a, b);
    BareFold(shown, ops, key);
    assert FoldOps(shown, ops, key) != shown;
    assert Fold(shown, [ops], key) == FoldOps(shown, ops, key) by {
      FoldOne(shown, ops, key);
    }
    assert OpsOf([]) == [];
    assert Flickers(trace, l', ops, key);
  }

  lemma {:induction false} TwoFold(row: Option<Row>, a: Op, b: Op)
    requires a.key == b.key
    ensures FoldOps(row, [a, b], a.key) == ApplyOp(ApplyOp(row, a).row, b).row
  {
    assert [a, b] == [a] + [b];
    FoldOpsConcat(row, [a], [b], a.key);
    FoldSingle(row, a, a.key);
    FoldSingle(ApplyOp(row, a).row, b, a.key);
  }

  /** Such a batch: an update of one field, then an upsert that creates the row without it. */
  lemma {:induction false} TwiceTouchedFlickers(key: Key)
    ensures MayFlicker([Op(key, Update, Some(map["a" := Bool(true)]), Tick(1), None), Op(key, Upsert, Some(map["b" := Bool(true)]), Tick(2), None)], key)
  {
    hide Tick, MayFlicker;
    var a := Op(key, Update, Some(map["a" := Bool(true)]), Tick(1), None);
    var b := Op(key, Upsert, Some(map["b" := Bool(true)]), Tick(2), None);
    assert "a" in Writes(a) && "a" !in Writes(b);
    FlickerIff(a, b);
  }
}
