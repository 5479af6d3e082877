/** One replica following one room by cursor, over a FIFO channel that may lose frames
(edge/src/registry-room.ts:383-406, 454-473, 607-622 against crates/doc/src/registry.rs:643-735):
what every step of every run keeps, for one server lifetime. */
module CursorSync {
  import opened Wrappers
  import opened Hlc
  import opened RegistryCore
  import opened MergeLaws
  import opened Queue
  import opened QueueNotes
  import opened RowTable
  import opened PendingQueue
  import opened RegistryRoom
  import opened RegistryDoc

  /** A rows broadcast or a hello's answer. `since` is the cursor an answer was computed from. */
  datatype Frame =
    | Rows(seqNo: nat, rows: Table)
    | State(since: nat, seqNo: nat, full: bool, rows: Table)

  /** `gone` remembers, for each key the room purged and nobody wrote since, its tombstone's
  position. */
  datatype Net = Net(
    server: Server, gone: map<Key, nat>,
    auth: Table, cursor: nat,
    hello: Option<nat>, channel: seq<Frame>)

  // ── steps ─────────────────────────────────────────────────────────────────

  /** Some client pushes a batch; the merged rows go out. */
  ghost predicate Push(n: Net, ops: seq<Op>, touched: Table, n': Net) {
    && RoomMerged(n.server, ops, n'.server, touched)
    && n' == n.(
      server := n'.server, gone := n.gone - touched.Keys,
      channel := if touched == map[] then n.channel else n.channel + [Rows(n'.server.seqNo, touched)])
  }

  ghost predicate Purge(n: Net, horizon: Clock, purged: Table, n': Net) {
    && Collected(n.server, horizon, n'.server, purged)
    && n' == n.(
      server := n'.server,
      gone := map k | k in n.gone.Keys + purged.Keys :: if k in purged then purged[k].seqNo else n.gone[k])
  }

  /** A frame is lost. */
  ghost predicate Lose(n: Net, i: nat, n': Net) {
    i < |n.channel| && n' == n.(channel := n.channel[..i] + n.channel[i + 1..])
  }

  /** A new connection: nothing of the old one arrives, and a hello with the cursor is on its way. */
  ghost predicate Reconnect(n: Net, n': Net) {
    n' == n.(channel := [], hello := Some(n.cursor))
  }

  ghost predicate AnswerHello(n: Net, f: StateFrame, n': Net) {
    && n.hello.Some? && Answers(n.server, n.hello, f)
    && n' == n.(hello := None, channel := n.channel + [State(if f.full then 0 else n.hello.value, f.seqNo, f.full, f.rows)])
  }

  /** What `apply_rows` and `apply_state` leave of the server rows. */
  function Received(auth: Table, f: Frame): Table {
    if f.State? && f.full then f.rows else auth + f.rows
  }

  function CursorAfter(cursor: nat, f: Frame): nat {
    if f.State? || f.seqNo == cursor + 1 then f.seqNo else cursor
  }

  ghost predicate Deliver(n: Net, n': Net) {
    && n.channel != []
    && n' == n.(auth := Received(n.auth, n.channel[0]), cursor := CursorAfter(n.cursor, n.channel[0]), channel := n.channel[1..])
  }

  /** A step that loses no frame of the connection. */
  ghost predicate Moves(n: Net, n': Net) {
    || (exists ops, touched :: Push(n, ops, touched, n'))
    || (exists horizon, purged :: Purge(n, horizon, purged, n'))
    || Reconnect(n, n') || (exists f :: AnswerHello(n, f, n')) || Deliver(n, n')
  }

  ghost predicate Step(n: Net, n': Net) {
    Moves(n, n') || exists i :: Lose(n, i, n')
  }

  function Start(): Net {
    Net(Server(map[], 0, 0), map[], map[], 0, None, [])
  }

  /** A run from an empty room and an empty replica. */
  ghost predicate Run(trace: seq<Net>)
    decreases |trace|
  {
    var n := |trace|;
    && n > 0
    && (if n == 1 then trace[0] == Start() else Step(trace[n - 2], trace[n - 1]) && Run(trace[..n - 1]))
  }

  // ── the invariant ─────────────────────────────────────────────────────────

  /** A server row at or below the cursor is held exactly; a purged one is not live here. */
  ghost predicate SyncedAt(n: Net, k: Key) {
    && (k in n.server.rows && n.server.rows[k].seqNo <= n.cursor ==> k in n.auth && n.auth[k] == n.server.rows[k])
    && (k in n.gone && n.gone[k] <= n.cursor && k in n.auth ==> n.auth[k].deleted)
    && (k in n.auth ==> k in n.server.rows || k in n.gone)
  }

  function Low(f: Frame): int {
    if f.State? then f.since else f.seqNo - 1
  }

  /** A frame holds every row last written in its window, and nothing older than what the room
  holds unless the room wrote it again past the frame. */
  ghost predicate FrameAt(n: Net, f: Frame, k: Key) {
    && (k in f.rows ==> k in n.server.rows || k in n.gone)
    && (k in n.server.rows && k in f.rows ==> n.server.rows[k] == f.rows[k] || n.server.rows[k].seqNo > f.seqNo)
    && (k in n.gone && k in f.rows ==> f.rows[k].deleted || n.gone[k] > f.seqNo)
    && (k in n.server.rows && Low(f) < n.server.rows[k].seqNo <= f.seqNo ==> k in f.rows)
    && (k in n.gone && Low(f) < n.gone[k] <= f.seqNo && !(f.State? && f.full) ==> k in f.rows)
  }

  ghost predicate FrameOk(n: Net, f: Frame) {
    && n.cursor <= f.seqNo <= n.server.seqNo
    && (f.State? ==> f.since <= n.cursor && (f.full ==> f.since == 0))
    && AllWellFormed(f.rows) && (forall k :: FrameAt(n, f, k))
  }

  predicate InOrder(f: Frame, g: Frame) {
    f.seqNo <= g.seqNo
  }

  ghost predicate Inv(n: Net) {
    && ServerValid(n.server)
    && n.cursor <= n.server.seqNo && AllWellFormed(n.auth)
    && (forall k :: k in n.gone ==> k !in n.server.rows && 1 <= n.gone[k] <= n.server.gcFloor)
    && (n.hello.Some? ==> n.hello.value <= n.cursor)
    && (forall k :: SyncedAt(n, k))
    && (forall i :: 0 <= i < |n.channel| ==> FrameOk(n, n.channel[i]))
    && (forall i, j {:trigger InOrder(n.channel[i], n.channel[j])} :: 0 <= i < j < |n.channel| ==> InOrder(n.channel[i], n.channel[j]))
  }

  lemma {:induction false} PushKeepsFrame(n: Net, ops: seq<Op>, touched: Table, n': Net, f: Frame)
    requires Inv(n) && Push(n, ops, touched, n') && FrameOk(n, f)
    ensures FrameOk(n', f)
  {
    MergedValid(n.server, ops, n'.server, touched);
    hide RoomMerged;
    forall k ensures FrameAt(n', f, k) {
      assert FrameAt(n, f, k);
    }
  }

  /** The broadcast of what a push touched. */
  lemma {:induction false} NewFrame(n: Net, ops: seq<Op>, touched: Table, n': Net)
    requires Inv(n) && Push(n, ops, touched, n') && touched != map[]
    ensures FrameOk(n', Rows(n'.server.seqNo, touched))
  {
    MergedValid(n.server, ops, n'.server, touched);
    hide PushedRow, AllWellFormed;
    forall k ensures FrameAt(n', Rows(n'.server.seqNo, touched), k) {
    }
  }

  lemma {:induction false} PushKeeps(n: Net, ops: seq<Op>, touched: Table, n': Net)
    requires Inv(n) && Push(n, ops, touched, n')
    ensures Inv(n')
  {
    MergedValid(n.server, ops, n'.server, touched);
    assert n'.server.rows == n.server.rows + touched && n'.server.gcFloor == n.server.gcFloor;
    assert touched == map[] ==> n'.server.seqNo == n.server.seqNo;
    hide PushedRow, FrameAt, AllWellFormed, Keyed;
    forall k ensures SyncedAt(n', k) {
      assert SyncedAt(n, k);
    }
    hide SyncedAt;
    forall i | 0 <= i < |n'.channel| ensures FrameOk(n', n'.channel[i]) {
      if i < |n.channel| {
        PushKeepsFrame(n, ops, touched, n', n.channel[i]);
      } else {
        NewFrame(n, ops, touched, n');
      }
    }
    forall i, j | 0 <= i < j < |n'.channel| ensures InOrder(n'.channel[i], n'.channel[j]) {
      if j < |n.channel| {
        assert InOrder(n.channel[i], n.channel[j]);
      } else {
        assert FrameOk(n, n.channel[i]);
      }
    }
  }

  /** What a purge does to one key. */
  lemma {:induction false} PurgedAt(n: Net, horizon: Clock, purged: Table, n': Net, k: Key)
    requires ServerValid(n.server) && Purge(n, horizon, purged, n')
    ensures RowAt(n'.server.rows, k) == if k in purged then None else RowAt(n.server.rows, k)
    ensures k in purged ==> k in n.server.rows && n.server.rows[k].deleted && k in n'.gone && n'.gone[k] == n.server.rows[k].seqNo
    ensures k in purged ==> 1 <= n.server.rows[k].seqNo <= n'.server.gcFloor
    ensures k !in purged ==> (k in n'.gone <==> k in n.gone) && (k in n.gone ==> n'.gone[k] == n.gone[k])
  {
    hide AllWellFormed;
  }

  lemma {:induction false} PurgeKeepsFrame(n: Net, horizon: Clock, purged: Table, n': Net, f: Frame)
    requires ServerValid(n.server) && Purge(n, horizon, purged, n') && FrameOk(n, f)
    ensures FrameOk(n', f)
  {
    hide AllWellFormed, ServerValid;
    forall k ensures FrameAt(n', f, k) {
      PurgedAt(n, horizon, purged, n', k);
      assert FrameAt(n, f, k);
      hide Collected, Expired;
    }
  }

  lemma {:induction false} PurgeKeeps(n: Net, horizon: Clock, purged: Table, n': Net)
    requires Inv(n) && Purge(n, horizon, purged, n')
    ensures Inv(n')
  {
    CollectedValid(n.server, horizon, n'.server, purged);
    hide AllWellFormed, ServerValid, FrameOk;
    forall k ensures SyncedAt(n', k) && (k in n'.gone ==> k !in n'.server.rows && 1 <= n'.gone[k] <= n'.server.gcFloor) {
      PurgedAt(n, horizon, purged, n', k);
      assert SyncedAt(n, k);
    }
    forall i | 0 <= i < |n'.channel| ensures FrameOk(n', n'.channel[i]) {
      PurgeKeepsFrame(n, horizon, purged, n', n.channel[i]);
    }
    forall i, j | 0 <= i < j < |n'.channel| ensures InOrder(n'.channel[i], n'.channel[j]) {
      assert InOrder(n.channel[i], n.channel[j]);
    }
  }

  lemma {:induction false} LoseKeeps(n: Net, i: nat, n': Net)
    requires Inv(n) && Lose(n, i, n')
    ensures Inv(n')
  {
    forall k ensures SyncedAt(n', k) {
      assert SyncedAt(n, k);
    }
    forall j | 0 <= j < |n'.channel| ensures FrameOk(n', n'.channel[j]) {
      var f := n.channel[if j < i then j else j + 1];
      assert FrameOk(n, f);
      SameFrame(n, n', f);
    }
    forall x, y | 0 <= x < y < |n'.channel| ensures InOrder(n'.channel[x], n'.channel[y]) {
      assert InOrder(n.channel[if x < i then x else x + 1], n.channel[if y < i then y else y + 1]);
    }
  }

  /** A frame's standing depends only on the room and the cursor. */
  lemma {:induction false} SameFrame(n: Net, n': Net, f: Frame)
    requires FrameOk(n, f) && n'.server == n.server && n'.gone == n.gone && n'.cursor == n.cursor
    ensures FrameOk(n', f)
  {
    forall k ensures FrameAt(n', f, k) {
      assert FrameAt(n, f, k);
    }
  }

  lemma {:induction false} AnswerKeeps(n: Net, f: StateFrame, n': Net)
    requires Inv(n) && AnswerHello(n, f, n')
    ensures Inv(n')
  {
    forall k ensures SyncedAt(n', k) {
      assert SyncedAt(n, k);
    }
    forall i | 0 <= i < |n'.channel| ensures FrameOk(n', n'.channel[i]) {
      if i < |n.channel| {
        assert FrameOk(n, n.channel[i]);
        SameFrame(n, n', n.channel[i]);
      } else {
        forall k ensures FrameAt(n', n'.channel[i], k) {
        }
      }
    }
    forall i, j | 0 <= i < j < |n'.channel| ensures InOrder(n'.channel[i], n'.channel[j]) {
      if j < |n.channel| {
        assert InOrder(n.channel[i], n.channel[j]);
      } else {
        assert FrameOk(n, n.channel[i]);
      }
    }
  }

  lemma {:induction false} DeliverSynced(n: Net, n': Net, k: Key)
    requires Inv(n) && Deliver(n, n')
    ensures SyncedAt(n', k) && n.cursor <= n'.cursor <= n.channel[0].seqNo
  {
    var f := n.channel[0];
    assert FrameOk(n, f);
    assert FrameAt(n, f, k) && SyncedAt(n, k);
  }

  lemma {:induction false} DeliverKeeps(n: Net, n': Net)
    requires Inv(n) && Deliver(n, n')
    ensures Inv(n')
  {
    forall k ensures SyncedAt(n', k) {
      DeliverSynced(n, n', k);
    }
    DeliverSynced(n, n', Key("", ""));
    assert FrameOk(n, n.channel[0]);
    forall i | 0 <= i < |n'.channel| ensures FrameOk(n', n'.channel[i]) {
      var f := n.channel[i + 1];
      assert n'.channel[i] == f;
      assert FrameOk(n, f) && InOrder(n.channel[0], n.channel[i + 1]);
      forall k ensures FrameAt(n', f, k) {
        assert FrameAt(n, f, k);
      }
    }
    forall i, j | 0 <= i < j < |n'.channel| ensures InOrder(n'.channel[i], n'.channel[j]) {
      assert InOrder(n.channel[i + 1], n.channel[j + 1]);
    }
  }

  lemma {:induction false} StepKeeps(n: Net, n': Net)
    requires Inv(n) && Step(n, n')
    ensures Inv(n')
  {
    if i :| Lose(n, i, n') {
      LoseKeeps(n, i, n');
    } else if ops, touched :| Push(n, ops, touched, n') {
      PushKeeps(n, ops, touched, n');
    } else if horizon, purged :| Purge(n, horizon, purged, n') {
      PurgeKeeps(n, horizon, purged, n');
    } else if Reconnect(n, n') {
      forall k ensures SyncedAt(n', k) {
        assert SyncedAt(n, k);
      }
    } else if f :| AnswerHello(n, f, n') {
      AnswerKeeps(n, f, n');
    } else {
      DeliverKeeps(n, n');
    }
  }

  lemma {:induction false} RunKeeps(trace: seq<Net>)
    requires Run(trace)
    ensures Inv(trace[|trace| - 1])
    decreases |trace|
  {
    if |trace| > 1 {
      RunKeeps(trace[..|trace| - 1]);
      StepKeeps(trace[|trace| - 2], trace[|trace| - 1]);
    }
  }

  // ── what a caller may rely on ─────────────────────────────────────────────

  /** At any moment of any run, every server row at or below the cursor is held exactly, and no
  frame in flight asks the replica to give the room its rows back. */
  lemma {:induction false} CursorSound(trace: seq<Net>, k: Key)
    requires Run(trace)
    ensures var n := trace[|trace| - 1];
      && (k in n.server.rows && n.server.rows[k].seqNo <= n.cursor ==> k in n.auth && n.auth[k] == n.server.rows[k])
      && (forall i :: 0 <= i < |n.channel| && n.channel[i].State? ==> n.channel[i].seqNo >= n.cursor)
      && AllWellFormed(n.auth) && (forall i :: 0 <= i < |n.channel| ==> AllWellFormed(n.channel[i].rows))
  {
    RunKeeps(trace);
    var n := trace[|trace| - 1];
    assert SyncedAt(n, k);
    forall i | 0 <= i < |n.channel| ensures n.channel[i].seqNo >= n.cursor && AllWellFormed(n.channel[i].rows) {
      assert FrameOk(n, n.channel[i]);
    }
  }

  /** Once the cursor stands at the room's position, the replica shows exactly the room's live
  rows: what the room purged is absent or a tombstone here. */
  lemma {:induction false} CaughtUp(trace: seq<Net>, k: Key)
    requires Run(trace)
    requires var n := trace[|trace| - 1]; n.cursor == n.server.seqNo
    ensures var n := trace[|trace| - 1];
      && (k in n.server.rows ==> k in n.auth && n.auth[k] == n.server.rows[k])
      && (k !in n.server.rows && k in n.auth ==> n.auth[k].deleted)
  {
    RunKeeps(trace);
    var n := trace[|trace| - 1];
    assert SyncedAt(n, k);
  }

  /** A hello's answer brings the replica to the position it was computed at: afterwards every
  row the room has not written since is held exactly, and whatever the room purged up to there
  is absent or a tombstone. */
  lemma {:induction false} DeltaAgrees(trace: seq<Net>, n': Net, k: Key)
    requires Run(trace)
    requires var n := trace[|trace| - 1]; Deliver(n, n') && n.channel[0].State?
    ensures n'.cursor == trace[|trace| - 1].channel[0].seqNo
    ensures k in n'.server.rows && n'.server.rows[k].seqNo <= n'.cursor ==> RowAt(n'.auth, k) == RowAt(n'.server.rows, k)
    ensures k in n'.gone && n'.gone[k] <= n'.cursor && k in n'.auth ==> n'.auth[k].deleted
  {
    RunKeeps(trace);
    DeliverSynced(trace[|trace| - 1], n', k);
  }

  // ── getting there ─────────────────────────────────────────────────────────

  /** Of what was sent on the present connection, no frame was lost. */
  ghost predicate NothingLost(trace: seq<Net>)
    decreases |trace|
  {
    var n := |trace|;
    n <= 1 || Reconnect(trace[n - 2], trace[n - 1]) || (Moves(trace[n - 2], trace[n - 1]) && NothingLost(trace[..n - 1]))
  }

  /** Where the cursor stands once these frames are delivered. */
  function Arrives(cursor: nat, channel: seq<Frame>): nat
    decreases |channel|
  {
    if channel == [] then cursor else CursorAfter(Arrives(cursor, channel[..|channel| - 1]), channel[|channel| - 1])
  }

  lemma {:induction false} ArrivesMore(cursor: nat, channel: seq<Frame>, f: Frame)
    ensures Arrives(cursor, channel + [f]) == CursorAfter(Arrives(cursor, channel), f)
  {
    assert (channel + [f])[..|channel|] == channel;
  }

  lemma {:induction false} ArrivesNext(cursor: nat, channel: seq<Frame>)
    requires channel != []
    ensures Arrives(CursorAfter(cursor, channel[0]), channel[1..]) == Arrives(cursor, channel)
    decreases |channel|
  {
    var front, last := channel[..|channel| - 1], channel[|channel| - 1];
    if front == [] {
      assert channel[1..] == [];
    } else {
      ArrivesNext(cursor, front);
      assert channel[1..] == front[1..] + [last] && channel == front + [last];
      ArrivesMore(CursorAfter(cursor, channel[0]), front[1..], last);
    }
  }

  /** The frames on their way lead to the room's position, unless a hello is still unanswered. */
  ghost predicate Leads(n: Net) {
    n.hello == None ==> Arrives(n.cursor, n.channel) == n.server.seqNo
  }

  lemma {:induction false} LeadsOn(n: Net, n': Net)
    requires Leads(n) && Moves(n, n')
    ensures Leads(n')
  {
    if ops, touched :| Push(n, ops, touched, n') {
      PushedSeq(n.server, ops, n'.server, touched);
      hide RoomMerged, Arrives;
      ArrivesMore(n.cursor, n.channel, Rows(n'.server.seqNo, touched));
    } else if horizon, purged :| Purge(n, horizon, purged, n') {
    } else if Reconnect(n, n') {
    } else if f :| AnswerHello(n, f, n') {
      ArrivesMore(n.cursor, n.channel, n'.channel[|n.channel|]);
    } else {
      ArrivesNext(n.cursor, n.channel);
    }
  }

  lemma {:induction false} PushedSeq(s: Server, ops: seq<Op>, s': Server, touched: Table)
    requires RoomMerged(s, ops, s', touched)
    ensures s'.seqNo == if touched == map[] then s.seqNo else s.seqNo + 1
  {
  }

  lemma {:induction false} LosslessLeads(trace: seq<Net>)
    requires Run(trace) && NothingLost(trace)
    ensures Leads(trace[|trace| - 1])
    decreases |trace|
  {
    var n := |trace|;
    hide Moves;
    if n > 1 && !Reconnect(trace[n - 2], trace[n - 1]) {
      LosslessLeads(trace[..n - 1]);
      LeadsOn(trace[n - 2], trace[n - 1]);
    }
  }

  /** A replica that lost no frame of its connection, had its hello answered and took all that was
  sent stands at the room's position, and so shows the room's rows. */
  lemma {:induction false} LosslessCatchesUp(trace: seq<Net>, k: Key)
    requires Run(trace) && NothingLost(trace)
    requires var n := trace[|trace| - 1]; n.hello == None && n.channel == []
    ensures var n := trace[|trace| - 1];
      && n.cursor == n.server.seqNo
      && (k in n.server.rows ==> k in n.auth && n.auth[k] == n.server.rows[k])
      && (k !in n.server.rows && k in n.auth ==> n.auth[k].deleted)
  {
    LosslessLeads(trace);
    CaughtUp(trace, k);
  }

  /** The room's answer to a hello with this cursor. */
  function AnswerTo(s: Server, cursor: nat): StateFrame {
    var full := !(s.gcFloor <= cursor <= s.seqNo);
    StateFrame(s.seqNo, full, s.gcFloor, map k | k in s.rows && (full || s.rows[k].seqNo > cursor) :: s.rows[k])
  }

  lemma {:induction false} AnswerToAnswers(s: Server, cursor: nat)
    ensures Answers(s, Some(cursor), AnswerTo(s, cursor))
  {
  }

  /** Whatever was lost before: reconnecting, having the hello answered and taking the answer brings
  it there. */
  lemma {:induction false} ReconnectCatchesUp(trace: seq<Net>) returns (longer: seq<Net>)
    requires Run(trace)
    ensures Run(longer) && |longer| == |trace| + 3 && trace <= longer
    ensures var n := longer[|longer| - 1];
      n.server == trace[|trace| - 1].server && n.cursor == n.server.seqNo && n.hello == None && n.channel == []
  {
    var n := trace[|trace| - 1];
    var f := AnswerTo(n.server, n.cursor);
    var sent := State(if f.full then 0 else n.cursor, f.seqNo, f.full, f.rows);
    var a := n.(channel := [], hello := Some(n.cursor));
    var b := a.(hello := None, channel := [sent]);
    var c := b.(auth := Received(b.auth, sent), cursor := f.seqNo, channel := []);
    AnswerToAnswers(n.server, n.cursor);
    assert f.seqNo == n.server.seqNo;
    hide Answers, AnswerTo, Received;
    assert [] + [sent] == [sent] && [sent][1..] == [];
    assert AnswerHello(a, f, b) && Deliver(b, c) && Reconnect(n, a);
    hide AnswerHello, Deliver, Reconnect, Push, Purge, Lose;
    RunMore(trace, a);
    RunMore(trace + [a], b);
    RunMore(trace + [a] + [b], c);
    longer := trace + [a] + [b] + [c];
  }

  lemma {:induction false} RunMore(trace: seq<Net>, n: Net)
    requires Run(trace) && Step(trace[|trace| - 1], n)
    ensures Run(trace + [n])
  {
    assert (trace + [n])[..|trace|] == trace;
  }

  /** Any two replicas of one room that caught up with it and have nothing queued show the same
  rows, whatever each of them missed, was sent or pushed on the way. */
  lemma {:induction false} CaughtUpReplicasAgree(trace: seq<Net>, trace': seq<Net>, doc: RegistryDoc, doc': RegistryDoc, key: Key)
    requires Run(trace) && Run(trace') && trace[|trace| - 1].server == trace'[|trace'| - 1].server
    requires Follows(doc, trace[|trace| - 1]) && Follows(doc', trace'[|trace'| - 1])
    ensures var rows := trace[|trace| - 1].server.rows;
      && (key in rows ==> doc.Display(key) == doc'.Display(key) == Some(rows[key]))
      && (key !in rows && doc.Display(key).Some? ==> doc.Display(key).value.deleted)
      && (key !in rows && doc'.Display(key).Some? ==> doc'.Display(key).value.deleted)
  {
    CaughtUp(trace, key);
    CaughtUp(trace', key);
    EmptyFolds([]);
  }

  /** The replica's rows and cursor, caught up with the room, and nothing queued. */
  ghost predicate Follows(doc: RegistryDoc, n: Net)
    reads doc
  {
    doc.authoritative == n.auth && doc.serverSeq == n.cursor == n.server.seqNo && doc.pending == []
  }

  // ── the replica's own code takes these steps ──────────────────────────────

  /** A connected replica handed a frame's rows, in any order, moves as `Deliver` says; its queue
  stays, but for the seeds a full replacement may call for. */
  method Receive(doc: RegistryDoc, f: Frame, list: seq<Row>, gcFloor: nat)
    requires doc.Valid() && !doc.localOnly && Keyed(f.rows) && Lists(list, f.rows) && AllWellFormed(f.rows)
    requires f.State? ==> doc.serverSeq <= f.seqNo
    modifies doc, doc.clock
    ensures doc.Valid()
    ensures doc.authoritative == Received(old(doc.authoritative), f)
    ensures doc.authoritative == if f.State? && f.full then f.rows else old(doc.authoritative) + f.rows
    ensures doc.serverSeq == CursorAfter(old(doc.serverSeq), f)
    ensures doc.serverSeq == if f.State? || f.seqNo == old(doc.serverSeq) + 1 then f.seqNo else old(doc.serverSeq)
    ensures !(f.State? && f.full) ==> doc.pending == old(doc.pending)
  {
    PutAllLists(doc.authoritative, list, f.rows);
    PutAllLists(map[], list, f.rows);
    assert map[] + f.rows == f.rows;
    forall i | 0 <= i < |list| ensures WellFormed(list[i]) {
    }
    hide QueueValid, OpsOf, Fold, FoldOps, PutAll, Shipshape, WellFormed, Enqueued;
    if f.State? {
      var outcome;
      ghost var seeds, trail;
      outcome, seeds, trail := doc.ApplyState(f.seqNo, f.full, gcFloor, list);
    } else {
      var ok := doc.ApplyRows(f.seqNo, list);
    }
  }

  /** The rows of a table, listed in any order. */
  ghost predicate Lists(list: seq<Row>, rows: Table) {
    && (forall i :: 0 <= i < |list| ==> list[i].key in rows && rows[list[i].key] == list[i])
    && (forall k :: k in rows ==> rows[k] in list)
  }

  lemma {:induction false} PutAllLists(auth: Table, list: seq<Row>, rows: Table)
    requires Keyed(rows) && Lists(list, rows)
    ensures PutAll(auth, list) == auth + rows
  {
    PutAllAt(auth, list, rows);
    forall k ensures RowAt(PutAll(auth, list), k) == RowAt(auth + rows, k) {
      if k in rows {
        var i :| 0 <= i < |list| && list[i] == rows[k];
        assert list[i].key == k;
      }
    }
    assert forall k :: k in PutAll(auth, list) <==> RowAt(PutAll(auth, list), k).Some?;
    assert forall k :: k in auth + rows <==> RowAt(auth + rows, k).Some?;
    assert forall k :: k in PutAll(auth, list) ==> RowAt(PutAll(auth, list), k).value == PutAll(auth, list)[k];
  }

  predicate Listed(list: seq<Row>, k: Key) {
    exists i :: 0 <= i < |list| && list[i].key == k
  }

  lemma {:induction false} PutAllAt(auth: Table, list: seq<Row>, rows: Table)
    requires forall i :: 0 <= i < |list| ==> list[i].key in rows && rows[list[i].key] == list[i]
    ensures forall k :: RowAt(PutAll(auth, list), k) == if Listed(list, k) then RowAt(rows, k) else RowAt(auth, k)
    decreases |list|
  {
    if list != [] {
      var rest := list[1..];
      var next := auth[list[0].key := list[0]];
      PutAllAt(next, rest, rows);
      forall k ensures RowAt(PutAll(auth, list), k) == if Listed(list, k) then RowAt(rows, k) else RowAt(auth, k) {
        if j :| 0 <= j < |rest| && rest[j].key == k {
          assert list[j + 1].key == k;
        } else if k == list[0].key {
          assert list[0].key == k;
        } else {
          forall i | 0 <= i < |list| ensures list[i].key != k {
            assert i > 0 ==> list[i] == rest[i - 1];
          }
        }
      }
    }
  }
}
