/** The chat room around the log: hello, backfill, push with live relay, and paged pulls
(edge/src/chat-room.ts:176-280, 385-477). */
module ChatRoom {
  import opened Wrappers
  import opened ByteSeq
  import opened ChatLog
  import Wire = ChatFrames

  const MAX_BATCH_ID := 128
  const MAX_HEADER_BYTES := 4096
  const ROWS_BODY_CAP := 4 * 1024 * 1024

  const MAX_CHECKPOINT_BYTES := 32 * 1024 * 1024

  datatype Frame =
    | State(headSeq: nat, seqFloor: nat, rowCount: nat, rowBytes: nat, frontier: Bytes)
    | Row(row: LogRow)
    | RowsDone(headSeq: nat)
    | Ack(batchId: string, seqNo: nat, dup: bool)
    | Error(code: string, batchId: string)

  datatype Socket = Socket(device: string, ready: bool, sent: seq<Frame>)

  type SocketId = nat

  /** The row went down this socket, or came up it: its own push was answered with that position. */
  predicate Got(socket: Socket, row: LogRow) {
    Row(row) in socket.sent || Ack(row.batchId, row.seqNo, false) in socket.sent
  }

  /** Every row past `lo` reached this socket, or came from it. */
  ghost predicate NoGap(socket: Socket, lo: nat, history: seq<LogRow>) {
    forall i {:trigger history[i]} :: lo <= i < |history| ==> Got(socket, history[i])
  }

  function Sending(socket: Socket, frame: Frame): Socket {
    socket.(sent := socket.sent + [frame])
  }

  /** A new row goes to every ready socket but one. */
  function Relayed(socket: Socket, skip: bool, row: LogRow): Socket {
    if skip || !socket.ready then socket else Sending(socket, Row(row))
  }

  method Relay(sockets: map<SocketId, Socket>, row: LogRow, except: Option<SocketId>) returns (after: map<SocketId, Socket>)
    ensures after.Keys == sockets.Keys
    ensures forall s :: s in sockets ==> after[s] == Relayed(sockets[s], except == Some(s), row)
  {
    after := sockets;
    var rest := sockets.Keys;
    while rest != {}
      invariant rest <= sockets.Keys == after.Keys
      invariant forall s :: s in sockets ==> after[s] == if s in rest then sockets[s] else Relayed(sockets[s], except == Some(s), row)
    {
      var s :| s in rest;
      if except != Some(s) && after[s].ready {
        after := after[s := Sending(after[s], Row(row))];
      }
      rest := rest - {s};
    }
  }

  function RowFrames(list: seq<LogRow>): (frames: seq<Frame>)
    ensures |frames| == |list| && forall j :: 0 <= j < |list| ==> frames[j] == Row(list[j])
  {
    seq(|list|, j requires 0 <= j < |list| => Row(list[j]))
  }

  method SendRows(socket: Socket, list: seq<LogRow>) returns (after: Socket)
    ensures after == socket.(sent := socket.sent + RowFrames(list))
  {
    after := socket;
    for i := 0 to |list|
      invariant after == socket.(sent := socket.sent + RowFrames(list)[..i])
    {
      after := Sending(after, Row(list[i]));
    }
  }

  /** The length of one row's frame: a type byte, the header's length, the header, the payload. */
  function FrameSize(row: LogRow, header: LogRow -> nat): nat {
    5 + header(row) + |row.bytes|
  }

  /** A pull over plain HTTPS: rows until the body cap, then nothing, not even an end mark. */
  method Page(list: seq<LogRow>, header: LogRow -> nat) returns (page: seq<LogRow>, done: bool)
    ensures page <= list && (done <==> page == list)
    ensures list != [] && 4 + FrameSize(list[0], header) <= ROWS_BODY_CAP ==> page != []
    ensures BodyBytes(page, header) <= ROWS_BODY_CAP
    ensures !done ==> BodyBytes(page, header) + 4 + FrameSize(list[|page|], header) > ROWS_BODY_CAP
  {
    page := [];
    var bodyBytes := 0;
    for i := 0 to |list|
      invariant page == list[..i] && bodyBytes == BodyBytes(page, header) <= ROWS_BODY_CAP
      invariant i > 0 ==> page != []
    {
      bodyBytes := bodyBytes + 4 + FrameSize(list[i], header);
      assert list[..i + 1][..i] == list[..i];
      if bodyBytes > ROWS_BODY_CAP {
        return page, false;
      }
      page := page + [list[i]];
    }
    assert list[..|list|] == list;
    return page, true;
  }

  function BodyBytes(page: seq<LogRow>, header: LogRow -> nat): nat
    decreases |page|
  {
    if page == [] then 0 else BodyBytes(page[..|page| - 1], header) + 4 + FrameSize(page[|page| - 1], header)
  }

  /** The frames of a page as they go out, each header as its text. */
  function RowsOnWire(page: seq<LogRow>, kind: uint8, text: LogRow -> Bytes): (frames: seq<Bytes>)
    requires forall i :: 0 <= i < |page| ==> |text(page[i])| <= MAX_HEADER_BYTES
    ensures |frames| == |page|
  {
    seq(|page|, i requires 0 <= i < |page| => Wire.Encoded(Wire.Frame(kind, text(page[i]), page[i].bytes)))
  }

  /** The bytes counted are the bytes of the response's body. */
  lemma {:induction false} CountedIsSent(page: seq<LogRow>, header: LogRow -> nat, kind: uint8, text: LogRow -> Bytes)
    requires forall i :: 0 <= i < |page| ==> |text(page[i])| == header(page[i]) <= MAX_HEADER_BYTES && |page[i].bytes| <= MAX_ROW_BYTES
    ensures var frames := RowsOnWire(page, kind, text);
      && (forall i :: 0 <= i < |frames| ==> |frames[i]| < Wire.U32)
      && |Wire.Body(frames)| == BodyBytes(page, header)
    decreases |page|
  {
    var frames := RowsOnWire(page, kind, text);
    Wire.BodySize(frames);
    if page != [] {
      var front := page[..|page| - 1];
      CountedIsSent(front, header, kind, text);
      var before := RowsOnWire(front, kind, text);
      Wire.BodySize(before);
      assert frames == before + [frames[|front|]];
      Wire.TotalLast(before, frames[|front|]);
    }
  }

  class ChatRoom {
    const log: ChatLog
    var sockets: map<SocketId, Socket>
    /** For each socket that asked for everything past a cursor: the position it is complete from. */
    ghost var asked: map<SocketId, nat>

    ghost predicate Valid()
      reads this, log
    {
      ValidBut(None)
    }

    /** All sockets are complete, but perhaps the one whose push is not answered yet. */
    ghost predicate ValidBut(pushing: Option<SocketId>)
      reads this, log
    {
      && log.Valid() && asked.Keys <= sockets.Keys
      && forall s {:trigger asked[s]} :: s in asked ==> sockets[s].ready && (pushing != Some(s) ==> NoGap(sockets[s], asked[s], log.history))
    }

    /** What `Join` and the requests of one socket leave of the others. */
    ghost predicate OthersAs(sockets0: map<SocketId, Socket>, ws: SocketId)
      reads this
    {
      sockets.Keys == sockets0.Keys + {ws} && forall s :: s in sockets && s != ws ==> s in sockets0 && sockets[s] == sockets0[s]
    }

    constructor ()
      ensures Valid() && fresh(log) && log.history == [] && sockets == map[]
    {
      log := new ChatLog();
      sockets, asked := map[], map[];
    }

    method Join(ws: SocketId, device: string)
      requires Valid() && ws !in sockets
      modifies this
      ensures Valid() && log.history == old(log.history) && sockets == old(sockets)[ws := Socket(device, false, [])]
    {
      sockets := sockets[ws := Socket(device, false, [])];
    }

    method HandleHello(ws: SocketId, device: string)
      requires Valid() && ws in sockets
      modifies this
      ensures Valid() && OthersAs(old(sockets), ws) && asked == old(asked)
      ensures sockets[ws].ready && sockets[ws].device == if device != "" then device else old(sockets)[ws].device
      ensures sockets[ws].sent == old(sockets)[ws].sent + [State(log.headSeq, log.seqFloor, |log.history| - log.seqFloor,
        ByteCount(log.history[log.seqFloor..]), if log.checkpoint.Some? then log.checkpoint.value.frontier else [])]
    {
      var socket := sockets[ws];
      var count, bytes := log.Stats();
      var frontier := if log.checkpoint.Some? then log.checkpoint.value.frontier else [];
      var f := State(log.headSeq, log.seqFloor, count, bytes, frontier);
      var after := Sending(Socket(if device != "" then device else socket.device, true, socket.sent), f);
      if ws in asked {
        StillNoGap(socket, after, asked[ws], log.history);
      }
      sockets := sockets[ws := after];
    }

    /** The rows past a cursor the log still holds, but for the named device's own. */
    ghost function Backfill(after: nat, exclude: string): seq<LogRow>
      reads log
    {
      Others(Since(log.history, if after < log.seqFloor then log.seqFloor else after), exclude)
    }

    /** Backfill. Without `excludeOwn`, from here on the socket misses no row past the cursor that
    the log still holds. */
    method HandleRowsReq(ws: SocketId, after: nat, excludeOwn: bool) returns (ok: bool)
      requires Valid() && ws in sockets
      modifies this
      ensures Valid() && OthersAs(old(sockets), ws)
      ensures ok <==> old(sockets)[ws].ready
      ensures sockets[ws] == old(sockets)[ws].(sent := old(sockets)[ws].sent
        + (if ok then RowFrames(Backfill(after, if excludeOwn then old(sockets)[ws].device else "")) + [RowsDone(log.headSeq)] else [Error("hello_first", "")]))
      ensures ok && !excludeOwn ==> ws in asked && asked[ws] <= (if after < log.seqFloor then log.seqFloor else after)
      ensures forall s :: s in old(asked) ==> s in asked && asked[s] <= old(asked)[s]
    {
      hide NoGap, Numbered, Sized, UniqueFrom, Retains, Backfill, RowFrames;
      var socket := sockets[ws];
      if !socket.ready {
        sockets := sockets[ws := Sending(socket, Error("hello_first", ""))];
        return false;
      }
      var exclude := if excludeOwn then socket.device else "";
      var now := Backfilling(ws, after, exclude);
      ghost var lo := if after < log.seqFloor then log.seqFloor else after;
      if exclude == "" && (ws !in asked || lo < asked[ws]) {
        asked := asked[ws := lo];
      }
      sockets := sockets[ws := now];
      return true;
    }

    method Backfilling(ws: SocketId, after: nat, exclude: string) returns (now: Socket)
      requires Valid() && ws in sockets
      ensures now == sockets[ws].(sent := sockets[ws].sent + (RowFrames(Backfill(after, exclude)) + [RowsDone(log.headSeq)]))
      ensures exclude == "" ==> NoGap(now, if after < log.seqFloor then log.seqFloor else after, log.history)
      ensures ws in asked ==> NoGap(now, asked[ws], log.history)
    {
      hide NoGap, Numbered, Sized, UniqueFrom, Retains, Others, Since, RowFrames;
      var socket := sockets[ws];
      var list := log.RowsAfter(after, exclude);
      now := SendRows(socket, list);
      now := Sending(now, RowsDone(log.headSeq));
      if ws in asked {
        StillNoGap(socket, now, asked[ws], log.history);
      }
      if exclude == "" {
        Backfilled(now, if after < log.seqFloor then log.seqFloor else after, log.history, list, socket.sent);
      }
    }

    /** Append an update and relay its row to every ready socket but the one it came from, which is
    complete again once the push is answered. */
    method AppendAndRelay(from: Option<SocketId>, device: string, batchId: string, payload: Bytes) returns (outcome: AppendOutcome)
      requires Valid() && (from.Some? ==> from.value in sockets)
      modifies this, log
      ensures ValidBut(from) && asked == old(asked) && log.seqFloor == old(log.seqFloor)
      ensures outcome == Empty <==> payload == []
      ensures outcome == TooLarge <==> |payload| > MAX_ROW_BYTES
      ensures Relays(old(sockets), old(log.history), from, device, batchId, payload, outcome)
    {
      hide NoGap, Numbered, Sized, UniqueFrom, Retains;
      ghost var before := log.history;
      outcome := log.AppendRow(device, batchId, payload);
      if outcome.Appended? && !outcome.dup {
        var row := LogRow(outcome.seqNo, device, batchId, payload);
        var after := Relay(sockets, row, from);
        forall s | s in asked ensures after[s].ready && (from != Some(s) ==> NoGap(after[s], asked[s], log.history)) {
          RelayNoGap(sockets[s], from == Some(s), row, asked[s], before);
        }
        sockets := after;
      }
    }

    /** A fresh row extends the log and reaches every ready socket but its sender, which is left
    alone; anything else changes nothing. A duplicate is a row the log holds. */
    ghost predicate Relays(sockets0: map<SocketId, Socket>, history0: seq<LogRow>, from: Option<SocketId>,
        device: string, batchId: string, payload: Bytes, outcome: AppendOutcome)
      reads this, log
    {
      && sockets.Keys == sockets0.Keys
      && (outcome.Appended? ==> 0 < outcome.seqNo <= |log.history| && log.history[outcome.seqNo - 1].batchId == batchId)
      && if outcome.Appended? && !outcome.dup then
           var row := LogRow(outcome.seqNo, device, batchId, payload);
           && log.history == history0 + [row] && outcome.seqNo == |history0| + 1
           && forall s | s in sockets0 ::
                sockets[s] == if from != Some(s) && sockets0[s].ready then sockets0[s].(sent := sockets0[s].sent + [Row(row)]) else sockets0[s]
         else log.history == history0 && sockets == sockets0
    }

    /** A push over the socket. The sender gets the ack, every other ready socket the row. */
    method HandlePush(ws: SocketId, batchId: string, payload: Bytes, admitted: bool) returns (reply: Frame)
      requires Valid() && ws in sockets
      modifies this, log
      ensures Valid() && asked == old(asked) && log.seqFloor == old(log.seqFloor)
      ensures reply.Ack? <==> old(sockets)[ws].ready && 1 <= |batchId| <= MAX_BATCH_ID && admitted && 1 <= |payload| <= MAX_ROW_BYTES
      ensures reply.Ack? ==> reply.batchId == batchId
      ensures !old(sockets)[ws].ready || |batchId| == 0 || |batchId| > MAX_BATCH_ID ==> reply == Error("bad_push", batchId)
      ensures !reply.Ack? && old(sockets)[ws].ready && 0 < |batchId| <= MAX_BATCH_ID ==>
        reply == Error(if !admitted then "quota" else if payload == [] then "empty" else "too_large", batchId)
      ensures sockets.Keys == old(sockets).Keys
      ensures sockets[ws] == old(sockets)[ws].(sent := old(sockets)[ws].sent + [reply])
      ensures reply.Ack? ==> 0 < reply.seqNo <= |log.history| && log.history[reply.seqNo - 1].batchId == batchId
      ensures var row := LogRow(|old(log.history)| + 1, old(sockets)[ws].device, batchId, payload);
        if reply.Ack? && !reply.dup then
          && reply.seqNo == row.seqNo && log.history == old(log.history) + [row]
          && forall s | s in sockets && s != ws ::
               sockets[s] == if old(sockets)[s].ready then old(sockets)[s].(sent := old(sockets)[s].sent + [Row(row)]) else old(sockets)[s]
        else log.history == old(log.history) && forall s :: s in sockets && s != ws ==> sockets[s] == old(sockets)[s]
    {
      hide NoGap, Numbered, Sized, UniqueFrom, Retains;
      var socket := sockets[ws];
      reply := Error("bad_push", batchId);
      if socket.ready && 0 < |batchId| <= MAX_BATCH_ID {
        if !admitted {
          reply := Error("quota", batchId);
        } else {
          var outcome := AppendAndRelay(Some(ws), socket.device, batchId, payload);
          match outcome {
            case Empty => reply := Error("empty", batchId);
            case TooLarge => reply := Error("too_large", batchId);
            case Appended(seqNo, dup) => reply := Ack(batchId, seqNo, dup);
          }
        }
      }
      assert sockets[ws] == socket;
      var answered := Sending(socket, reply);
      if ws in asked {
        Answered(socket, answered, asked[ws], old(log.history), log.history);
      }
      sockets := sockets[ws := answered];
    }

    /** A push over plain HTTPS: every ready socket gets the row. */
    method PostRows(device: string, batchId: string, payload: Bytes, admitted: bool) returns (outcome: Option<AppendOutcome>)
      requires Valid()
      modifies this, log
      ensures Valid() && asked == old(asked) && log.seqFloor == old(log.seqFloor)
      ensures outcome == None <==> |batchId| == 0 || |batchId| > MAX_BATCH_ID || !admitted
      ensures outcome == None ==> log.history == old(log.history) && sockets == old(sockets)
      ensures outcome.Some? ==>
        && (outcome.value == Empty <==> payload == []) && (outcome.value == TooLarge <==> |payload| > MAX_ROW_BYTES)
        && Relays(old(sockets), old(log.history), None, device, batchId, payload, outcome.value)
    {
      if |batchId| == 0 || |batchId| > MAX_BATCH_ID || !admitted {
        return None;
      }
      var o := AppendAndRelay(None, device, batchId, payload);
      return Some(o);
    }

    /** A checkpoint upload. One that covers rows cannot leave its frontier blank. */
    method PostCheckpoint(seqCovered: nat, frontier: Bytes, bytes: Bytes) returns (outcome: Option<CheckpointOutcome>)
      requires Valid()
      modifies log
      ensures Valid() && log.history == old(log.history)
      ensures outcome == None <==> (frontier == [] && seqCovered > 0) || |bytes| > MAX_CHECKPOINT_BYTES
      ensures old(log.seqFloor) <= log.seqFloor <= log.headSeq
      ensures outcome.Some? ==>
        && (outcome.value == EmptyCheckpoint <==> bytes == [])
        && (outcome.value == FloorRegression <==> bytes != [] && seqCovered < old(log.seqFloor))
        && (outcome.value == AheadOfHead <==> bytes != [] && seqCovered > log.headSeq)
        && (outcome.value.Committed? ==> outcome.value.pruned == seqCovered - old(log.seqFloor))
      ensures outcome.Some? && outcome.value.Committed? ==> log.seqFloor == seqCovered && log.checkpoint == Some(Checkpoint(seqCovered, frontier, bytes))
      ensures !(outcome.Some? && outcome.value.Committed?) ==> log.seqFloor == old(log.seqFloor) && log.checkpoint == old(log.checkpoint)
    {
      if (|frontier| == 0 && seqCovered > 0) || |bytes| > MAX_CHECKPOINT_BYTES {
        return None;
      }
      var o := log.CommitCheckpoint(seqCovered, frontier, bytes);
      return Some(o);
    }

    /** A pull over plain HTTPS, one page of it. */
    method GetRows(after: nat, exclude: string, header: LogRow -> nat) returns (page: seq<LogRow>, done: bool)
      requires Valid()
      ensures var list := Others(Since(log.history, if after < log.seqFloor then log.seqFloor else after), exclude);
        && page <= list && (done <==> page == list)
        && (list != [] && 4 + FrameSize(list[0], header) <= ROWS_BODY_CAP ==> page != [])
        && BodyBytes(page, header) <= ROWS_BODY_CAP
        && (!done ==> BodyBytes(page, header) + 4 + FrameSize(list[|page|], header) > ROWS_BODY_CAP)
    {
      var list := log.RowsAfter(after, exclude);
      page, done := Page(list, header);
    }

    /** An operator wipe closes every socket with the log. */
    method Reset()
      requires Valid()
      modifies this, log
      ensures Valid() && log.history == [] && sockets == map[]
    {
      log.Reset();
      sockets, asked := map[], map[];
    }
  }

  lemma {:induction false} StillNoGap(socket: Socket, after: Socket, lo: nat, history: seq<LogRow>)
    requires NoGap(socket, lo, history) && socket.sent <= after.sent
    ensures NoGap(after, lo, history)
  {
    forall i | lo <= i < |history| ensures Got(after, history[i]) {
      assert Got(socket, history[i]);
    }
  }

  /** The answer makes the sender complete again: the row its push added is the one acked. */
  lemma {:induction false} Answered(socket: Socket, answered: Socket, lo: nat, before: seq<LogRow>, history: seq<LogRow>)
    requires NoGap(socket, lo, before) && socket.sent <= answered.sent
    requires history == before || (|history| == |before| + 1 && before <= history && Got(answered, history[|before|]))
    ensures NoGap(answered, lo, history)
  {
    forall i | lo <= i < |history| ensures Got(answered, history[i]) {
      if i < |before| {
        assert Got(socket, before[i]) && history[i] == before[i];
      }
    }
  }

  lemma {:induction false} Backfilled(socket: Socket, lo: nat, history: seq<LogRow>, list: seq<LogRow>, earlier: seq<Frame>)
    requires list == Others(Since(history, lo), "") && earlier + RowFrames(list) <= socket.sent
    ensures NoGap(socket, lo, history)
  {
    OthersSubset(Since(history, lo), "");
    forall i | lo <= i < |history| ensures Got(socket, history[i]) {
      assert Since(history, lo)[i - lo] == history[i];
      var j :| 0 <= j < |list| && list[j] == history[i];
      assert (earlier + RowFrames(list))[|earlier| + j] == Row(history[i]);
      assert socket.sent[|earlier| + j] == Row(history[i]);
    }
  }

  lemma {:induction false} RelayNoGap(socket: Socket, pushed: bool, row: LogRow, lo: nat, history: seq<LogRow>)
    requires NoGap(socket, lo, history) && socket.ready
    ensures Relayed(socket, pushed, row).ready && (!pushed ==> NoGap(Relayed(socket, pushed, row), lo, history + [row]))
  {
    var after, longer := Relayed(socket, pushed, row), history + [row];
    forall i | !pushed && lo <= i < |longer| ensures Got(after, longer[i]) {
      if i < |history| {
        assert Got(socket, history[i]) && longer[i] == history[i];
      }
    }
  }

  // ── pulling page after page ───────────────────────────────────────────────

  /** The pages a client gets by asking again from the last row of each; `histories` is the log at
  each request, growing, with no checkpoint in between. */
  ghost predicate Pull(histories: seq<seq<LogRow>>, floor: nat, after: nat, exclude: string, header: LogRow -> nat, pages: seq<seq<LogRow>>)
    decreases |pages|
  {
    && pages != [] && |histories| == |pages|
    && var list := Others(Since(histories[0], if after < floor then floor else after), exclude);
      var page := pages[0];
      && page <= list
      && (list != [] && 4 + FrameSize(list[0], header) <= ROWS_BODY_CAP ==> page != [])
      && (|pages| == 1 ==> page == list)
      && (|pages| > 1 ==> page != list && histories[0] <= histories[1])
      && (|pages| > 1 ==> Pull(histories[1..], floor, if page == [] then after else page[|page| - 1].seqNo, exclude, header, pages[1..]))
  }

  function Joined(pages: seq<seq<LogRow>>): seq<LogRow>
    decreases |pages|
  {
    if pages == [] then [] else pages[0] + Joined(pages[1..])
  }

  lemma {:induction false} PullGrows(histories: seq<seq<LogRow>>, floor: nat, after: nat, exclude: string, header: LogRow -> nat, pages: seq<seq<LogRow>>)
    requires Pull(histories, floor, after, exclude, header, pages)
    ensures histories[0] <= histories[|histories| - 1]
    decreases |pages|
  {
    if |pages| > 1 {
      var page := pages[0];
      PullGrows(histories[1..], floor, if page == [] then after else page[|page| - 1].seqNo, exclude, header, pages[1..]);
    }
  }

  /** What was listed first stays first as the log grows. */
  lemma {:induction false} OthersGrow(history: seq<LogRow>, longer: seq<LogRow>, start: nat, exclude: string)
    requires start <= |history| && history <= longer
    ensures Others(Since(history, start), exclude) <= Others(Since(longer, start), exclude)
  {
    var more := longer[|history|..];
    assert longer == history + more;
    assert Since(longer, start) == Since(history, start) + more;
    OthersConcat(Since(history, start), more, exclude);
  }

  /** Truncated pages lose nothing and repeat nothing: end to end they are the rows past the cursor
  as the log stood at the last request, in order. */
  lemma {:induction false} PagesDeliver(histories: seq<seq<LogRow>>, floor: nat, after: nat, exclude: string, header: LogRow -> nat, pages: seq<seq<LogRow>>)
    requires Pull(histories, floor, after, exclude, header, pages)
    requires var last := histories[|histories| - 1];
      Numbered(last) && forall i :: 0 <= i < |last| ==> |last[i].bytes| <= MAX_ROW_BYTES && header(last[i]) <= MAX_HEADER_BYTES
    requires floor <= |histories[0]| && after <= |histories[0]|
    ensures Joined(pages) == Others(Since(histories[|histories| - 1], if after < floor then floor else after), exclude)
    decreases |pages|
  {
    var start := if after < floor then floor else after;
    var list := Others(Since(histories[0], start), exclude);
    var page := pages[0];
    if |pages| == 1 {
      assert Joined(pages[1..]) == [];
    } else {
      PullGrows(histories, floor, after, exclude, header, pages);
      var last := histories[|histories| - 1];
      NextPage(histories[0], last, start, exclude, header, page);
      PagesDeliver(histories[1..], floor, page[|page| - 1].seqNo, exclude, header, pages[1..]);
      hide Others, Since;
      assert Joined(pages) == page + Joined(pages[1..]);
    }
  }

  /** After an unfinished page, the rest of the log's rows are those past the page's last one. */
  lemma {:induction false} NextPage(history: seq<LogRow>, last: seq<LogRow>, start: nat, exclude: string, header: LogRow -> nat, page: seq<LogRow>)
    requires start <= |history| && history <= last && Numbered(last)
    requires forall i :: 0 <= i < |last| ==> |last[i].bytes| <= MAX_ROW_BYTES && header(last[i]) <= MAX_HEADER_BYTES
    requires var list := Others(Since(history, start), exclude);
      page < list && (list != [] && 4 + FrameSize(list[0], header) <= ROWS_BODY_CAP ==> page != [])
    ensures page != [] && start < page[|page| - 1].seqNo <= |history|
    ensures Others(Since(last, start), exclude) == page + Others(Since(last, page[|page| - 1].seqNo), exclude)
  {
    var list := Others(Since(history, start), exclude);
    var all := Others(Since(last, start), exclude);
    OthersGrow(history, last, start, exclude);
    FirstFits(last, start, exclude, header);
    assert list[0] == all[0];
    var n := |page|;
    ResumeFromLast(last, start, exclude, n);
    assert page[n - 1] == list[n - 1] == all[n - 1];
    assert Numbered(history) by {
      assert forall i :: 0 <= i < |history| ==> history[i] == last[i];
    }
    LastWithin(history, start, exclude, page[n - 1]);
    hide Others, Since;
    assert page == all[..n];
    assert all == all[..n] + all[n..];
  }

  /** Rows within their limits fit a page, so no page but the last is empty. */
  lemma {:induction false} FirstFits(history: seq<LogRow>, start: nat, exclude: string, header: LogRow -> nat)
    requires forall i :: 0 <= i < |history| ==> |history[i].bytes| <= MAX_ROW_BYTES && header(history[i]) <= MAX_HEADER_BYTES
    ensures var all := Others(Since(history, start), exclude);
      all != [] ==> 4 + FrameSize(all[0], header) <= ROWS_BODY_CAP
  {
    var all := Others(Since(history, start), exclude);
    OthersSubset(Since(history, start), exclude);
    if all != [] {
      assert all[0] in all;
    }
  }

  lemma {:induction false} LastWithin(history: seq<LogRow>, start: nat, exclude: string, row: LogRow)
    requires Numbered(history) && row in Others(Since(history, start), exclude)
    ensures start < row.seqNo <= |history|
  {
    OthersSubset(Since(history, start), exclude);
  }
}
