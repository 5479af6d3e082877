/** The chat room's append-only log of opaque updates, pruned by client checkpoints
(edge/src/chat-log.ts). */
module ChatLog {
  import opened Wrappers
  import opened ByteSeq

  const MAX_ROW_BYTES := 1024 * 1024

  datatype LogRow = LogRow(seqNo: nat, device: string, batchId: string, bytes: Bytes)

  datatype AppendOutcome = Appended(seqNo: nat, dup: bool) | TooLarge | Empty

  datatype CheckpointOutcome = Committed(seqFloor: nat, pruned: nat) | FloorRegression | AheadOfHead | EmptyCheckpoint

  datatype Checkpoint = Checkpoint(seqNo: nat, frontier: Bytes, bytes: Bytes)

  /** The rows a device did not write itself; an empty name excludes nobody. */
  function Others(rows: seq<LogRow>, exclude: string): seq<LogRow>
    decreases |rows|
  {
    if rows == [] then []
    else Others(rows[..|rows| - 1], exclude) + (if exclude == "" || rows[|rows| - 1].device != exclude then [rows[|rows| - 1]] else [])
  }

  function ByteCount(rows: seq<LogRow>): nat
    decreases |rows|
  {
    if rows == [] then 0 else ByteCount(rows[..|rows| - 1]) + |rows[|rows| - 1].bytes|
  }

  /** The retained updates, end to end. */
  function Payloads(rows: seq<LogRow>): Bytes
    decreases |rows|
  {
    if rows == [] then [] else rows[0].bytes + Payloads(rows[1..])
  }

  lemma {:induction false} PayloadsLast(rows: seq<LogRow>, row: LogRow)
    ensures Payloads(rows + [row]) == Payloads(rows) + row.bytes
    decreases |rows|
  {
    if rows == [] {
      assert [] + [row] == [row] && [row][1..] == [] && row.bytes + [] == [] + row.bytes;
    } else {
      assert (rows + [row])[1..] == rows[1..] + [row];
      PayloadsLast(rows[1..], row);
      assert rows[0].bytes + (Payloads(rows[1..]) + row.bytes) == rows[0].bytes + Payloads(rows[1..]) + row.bytes;
    }
  }

  lemma {:induction false} CountedBytes(rows: seq<LogRow>)
    ensures ByteCount(rows) == |Payloads(rows)|
    decreases |rows|
  {
    if rows != [] {
      var front, last := rows[..|rows| - 1], rows[|rows| - 1];
      assert rows == front + [last];
      CountedBytes(front);
      PayloadsLast(front, last);
    }
  }

  /** Positions are contiguous from one. */
  predicate Numbered(history: seq<LogRow>) {
    forall i :: 0 <= i < |history| ==> history[i].seqNo == i + 1
  }

  /** No batch id is retained twice. */
  predicate UniqueFrom(history: seq<LogRow>, floor: nat) {
    forall i, j :: floor <= i < j < |history| ==> history[i].batchId != history[j].batchId
  }

  predicate Sized(history: seq<LogRow>) {
    forall i :: 0 <= i < |history| ==> 1 <= |history[i].bytes| <= MAX_ROW_BYTES
  }

  /** The table holds exactly the history past the floor. */
  ghost predicate Retains(rows: map<nat, LogRow>, history: seq<LogRow>, floor: nat) {
    && (forall s :: s in rows <==> floor < s <= |history|)
    && (forall s :: s in rows ==> rows[s] == history[s - 1])
  }

  lemma {:induction false} RetainedCount(rows: map<nat, LogRow>, history: seq<LogRow>, floor: nat)
    requires floor <= |history| && Retains(rows, history, floor)
    ensures |rows| == |history| - floor
    decreases |history| - floor
  {
    if floor == |history| {
      assert rows == map[];
    } else {
      var rest := rows - {floor + 1};
      RetainedCount(rest, history, floor + 1);
      assert rows.Keys == rest.Keys + {floor + 1};
      assert |rows| == |rows.Keys| && |rest| == |rest.Keys|;
    }
  }

  lemma {:induction false} Held(rows: map<nat, LogRow>, history: seq<LogRow>, floor: nat, s: nat)
    requires Retains(rows, history, floor) && floor <= s < |history|
    ensures s + 1 in rows && rows[s + 1] == history[s]
  {
  }

  lemma {:induction false} CountedNone(history: seq<LogRow>, floor: nat)
    requires floor <= |history|
    ensures ByteCount(history[floor..floor]) == 0
  {
  }

  lemma {:induction false} NextCounted(history: seq<LogRow>, floor: nat, s: nat)
    requires floor <= s < |history|
    ensures ByteCount(history[floor..s + 1]) == ByteCount(history[floor..s]) + |history[s].bytes|
  {
    var more := history[floor..s + 1];
    assert more[..|more| - 1] == history[floor..s];
  }

  lemma {:induction false} Pruned(rows: map<nat, LogRow>, history: seq<LogRow>, floor: nat, covered: nat)
    requires Retains(rows, history, floor) && UniqueFrom(history, floor) && floor <= covered <= |history|
    ensures Retains(Kept(rows, covered), history, covered) && UniqueFrom(history, covered)
    ensures |rows| - |Kept(rows, covered)| == covered - floor
  {
    RetainedCount(rows, history, floor);
    RetainedCount(Kept(rows, covered), history, covered);
  }

  function Kept(rows: map<nat, LogRow>, covered: nat): map<nat, LogRow> {
    map s | s in rows && s > covered :: rows[s]
  }

  class ChatLog {
    var rows: map<nat, LogRow>
    var headSeq: nat
    var seqFloor: nat
    var checkpoint: Option<Checkpoint>
    /** Every update accepted since the last reset. */
    ghost var history: seq<LogRow>

    ghost predicate Valid()
      reads this
    {
      && headSeq == |history| && seqFloor <= headSeq
      && Numbered(history) && Sized(history) && UniqueFrom(history, seqFloor)
      && Retains(rows, history, seqFloor)
      && (if checkpoint.Some? then checkpoint.value.seqNo == seqFloor else seqFloor == 0)
    }

    constructor ()
      ensures Valid() && history == [] && seqFloor == 0
    {
      rows, headSeq, seqFloor, checkpoint, history := map[], 0, 0, None, [];
    }

    method Reset()
      modifies this
      ensures Valid() && history == [] && seqFloor == 0
    {
      rows, headSeq, seqFloor, checkpoint, history := map[], 0, 0, None, [];
    }

    /** Append one update. A batch id still retained appends nothing and answers with the position
    it got the first time. */
    method AppendRow(device: string, batchId: string, bytes: Bytes) returns (outcome: AppendOutcome)
      requires Valid()
      modifies `rows, `headSeq, `history
      ensures Valid()
      ensures outcome == Empty <==> bytes == []
      ensures outcome == TooLarge <==> |bytes| > MAX_ROW_BYTES
      ensures outcome.Appended? && outcome.dup ==> seqFloor < outcome.seqNo <= |history| && history[outcome.seqNo - 1].batchId == batchId
      ensures outcome.Appended? && !outcome.dup ==>
        && outcome.seqNo == |old(history)| + 1 && history == old(history) + [LogRow(outcome.seqNo, device, batchId, bytes)]
        && (forall i :: seqFloor <= i < |old(history)| ==> old(history)[i].batchId != batchId)
      ensures !(outcome.Appended? && !outcome.dup) ==> history == old(history) && rows == old(rows)
    {
      if |bytes| == 0 {
        return Empty;
      }
      if |bytes| > MAX_ROW_BYTES {
        return TooLarge;
      }
      if s :| s in rows && rows[s].batchId == batchId {
        return Appended(s, true);
      }
      var seqNo := headSeq + 1;
      var row := LogRow(seqNo, device, batchId, bytes);
      forall i | seqFloor <= i < |history| ensures history[i].batchId != batchId {
        assert i + 1 in rows;
      }
      rows := rows[seqNo := row];
      headSeq := seqNo;
      history := history + [row];
      return Appended(seqNo, false);
    }

    /** The rows past a cursor, in order. From the floor on that is the history itself. */
    method RowsAfter(after: nat, exclude: string) returns (out: seq<LogRow>)
      requires Valid()
      ensures out == Others(Since(history, if after < seqFloor then seqFloor else after), exclude)
    {
      hide Numbered, Sized, UniqueFrom;
      var start := if after < seqFloor then seqFloor else after;
      ghost var since := Since(history, start);
      out := [];
      var s := start;
      while s < headSeq
        invariant start <= s && (s <= headSeq || s == start)
        invariant out == Others(since[..if s <= headSeq then s - start else 0], exclude)
      {
        s := s + 1;
        var row := rows[s];
        ghost var n := s - start;
        assert since[..n] == since[..n - 1] + [row];
        assert since[..n][..n - 1] == since[..n - 1];
        if exclude == "" || row.device != exclude {
          out := out + [row];
        }
      }
      assert since[..|since|] == since;
    }

    /** Take a client's checkpoint of the rows up to `seqCovered`. The floor never moves back and
    never passes the head; the rows it covers go, no others. */
    method CommitCheckpoint(seqCovered: nat, frontier: Bytes, bytes: Bytes) returns (outcome: CheckpointOutcome)
      requires Valid()
      modifies `rows, `seqFloor, `checkpoint
      ensures Valid() && headSeq == old(headSeq) && history == old(history)
      ensures outcome == EmptyCheckpoint <==> bytes == []
      ensures outcome == FloorRegression <==> bytes != [] && seqCovered < old(seqFloor)
      ensures outcome == AheadOfHead <==> bytes != [] && seqCovered > headSeq
      ensures outcome.Committed? ==>
        && outcome == Committed(seqCovered, seqCovered - old(seqFloor))
        && seqFloor == seqCovered && checkpoint == Some(Checkpoint(seqCovered, frontier, bytes))
      ensures !outcome.Committed? ==> seqFloor == old(seqFloor) && rows == old(rows) && checkpoint == old(checkpoint)
    {
      if |bytes| == 0 {
        return EmptyCheckpoint;
      }
      if seqCovered < seqFloor {
        return FloorRegression;
      }
      if seqCovered > headSeq {
        return AheadOfHead;
      }
      Pruned(rows, history, seqFloor, seqCovered);
      hide Numbered, Sized, UniqueFrom, Retains, Kept;
      var before := |rows|;
      rows := Kept(rows, seqCovered);
      seqFloor := seqCovered;
      checkpoint := Some(Checkpoint(seqCovered, frontier, bytes));
      return Committed(seqCovered, before - |rows|);
    }

    /** The counters the hello answers with. */
    method Stats() returns (rowCount: nat, rowBytes: nat)
      requires Valid()
      ensures rowCount == headSeq - seqFloor
      ensures rowBytes == ByteCount(history[seqFloor..]) == |Payloads(history[seqFloor..])|
    {
      CountedBytes(history[seqFloor..]);
      RetainedCount(rows, history, seqFloor);
      rowBytes := SumBytes(rows, seqFloor, headSeq, history);
      rowCount := |rows|;
    }
  }

  method SumBytes(rows: map<nat, LogRow>, floor: nat, head: nat, ghost history: seq<LogRow>) returns (total: nat)
    requires Retains(rows, history, floor) && floor <= head == |history|
    ensures total == ByteCount(history[floor..])
  {
    CountedNone(history, floor);
    total := 0;
    hide ByteCount;
    for s := floor to head
      invariant total == ByteCount(history[floor..s])
    {
      Held(rows, history, floor, s);
      NextCounted(history, floor, s);
      total := total + |rows[s + 1].bytes|;
    }
    assert history[floor..head] == history[floor..];
  }

  function Since(history: seq<LogRow>, after: nat): (out: seq<LogRow>)
    ensures after <= |history| ==> |out| == |history| - after
  {
    if after <= |history| then history[after..] else []
  }

  // ── pages ─────────────────────────────────────────────────────────────────

  lemma {:induction false} OthersConcat(x: seq<LogRow>, y: seq<LogRow>, exclude: string)
    ensures Others(x + y, exclude) == Others(x, exclude) + Others(y, exclude)
    decreases |y|
  {
    if y == [] {
      assert x + y == x;
    } else {
      assert (x + y)[..|x + y| - 1] == x + y[..|y| - 1];
      OthersConcat(x, y[..|y| - 1], exclude);
    }
  }

  lemma {:induction false} OthersSubset(rows: seq<LogRow>, exclude: string)
    ensures forall r :: r in Others(rows, exclude) <==> r in rows && (exclude == "" || r.device != exclude)
    ensures |Others(rows, exclude)| <= |rows|
    decreases |rows|
  {
    if rows != [] {
      var front := rows[..|rows| - 1];
      assert rows == front + [rows[|rows| - 1]];
      OthersSubset(front, exclude);
    }
  }

  lemma {:induction false} Shifted<T>(head: T, tail: seq<T>, n: nat)
    requires 1 < n <= |tail| + 1
    ensures ([head] + tail)[n - 1] == tail[n - 2] && ([head] + tail)[n..] == tail[n - 1..]
  {
  }

  /** Asking again from the last row of a page asks for exactly the rest. */
  lemma {:induction false} ResumeFromLast(history: seq<LogRow>, after: nat, exclude: string, n: nat)
    requires Numbered(history) && after <= |history|
    requires var list := Others(Since(history, after), exclude); 0 < n <= |list|
    ensures var list := Others(Since(history, after), exclude);
      var last := list[n - 1].seqNo;
      after < last <= |history| && Others(Since(history, last), exclude) == list[n..]
    decreases |history| - after
  {
    var list := Others(Since(history, after), exclude);
    var head, rest := history[after], Since(history, after + 1);
    assert Since(history, after) == [head] + rest;
    OthersConcat([head], rest, exclude);
    assert [head][..0] == [] && Others([], exclude) == [];
    var kept := Others([head], exclude);
    var tail := Others(rest, exclude);
    assert list == kept + tail;
    if kept == [] {
      assert list == tail;
      ResumeFromLast(history, after + 1, exclude, n);
    } else {
      assert kept == [head];
      if n == 1 {
        assert list[0].seqNo == after + 1 && list[1..] == tail;
      } else {
        ResumeFromLast(history, after + 1, exclude, n - 1);
        Shifted(head, tail, n);
      }
    }
  }
}
