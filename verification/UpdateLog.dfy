/** The chunked update log: updates wider than a row are stored over several and read back whole
(edge/src/update-log.ts). */
module UpdateLog {
  import opened Seqs
  import opened ByteSeq

  const CHUNK_BYTES := 1_500_000

  /** `cont` marks a row that continues the one before it. */
  datatype LogRow = LogRow(bytes: Bytes, cont: bool)

  function Join(parts: seq<Bytes>): Bytes
    decreases |parts|
  {
    if parts == [] then [] else Join(parts[..|parts| - 1]) + parts[|parts| - 1]
  }

  /** The rows of one update from an offset on. */
  function RowsFrom(update: Bytes, off: nat): seq<LogRow>
    requires off <= |update|
    decreases |update| - off
  {
    if off == |update| then []
    else
      var end := if off + CHUNK_BYTES < |update| then off + CHUNK_BYTES else |update|;
      [LogRow(update[off..end], off != 0)] + RowsFrom(update, end)
  }

  function RowsOf(updates: seq<Bytes>): seq<LogRow>
    decreases |updates|
  {
    if updates == [] then [] else RowsOf(updates[..|updates| - 1]) + RowsFrom(updates[|updates| - 1], 0)
  }

  /** What the reader has yielded, and the group it is in the middle of. */
  datatype Reading = Reading(done: seq<Bytes>, group: seq<Bytes>)

  function Next(r: Reading, row: LogRow): Reading {
    if !row.cont && r.group != [] then Reading(r.done + [Join(r.group)], [row.bytes])
    else Reading(r.done, r.group + [row.bytes])
  }

  function Read(rows: seq<LogRow>): Reading
    decreases |rows|
  {
    if rows == [] then Reading([], []) else Next(Read(rows[..|rows| - 1]), rows[|rows| - 1])
  }

  lemma {:induction false} Grown(update: Bytes, off: nat, end: nat)
    requires off <= end <= |update|
    ensures update[..off] + update[off..end] == update[..end]
  {
  }

  lemma {:induction false} JoinLast(group: seq<Bytes>, b: Bytes)
    ensures Join(group + [b]) == Join(group) + b
  {
    assert (group + [b])[..|group|] == group;
  }

  lemma {:induction false} ReadLast(rows: seq<LogRow>, row: LogRow)
    ensures Read(rows + [row]) == Next(Read(rows), row)
  {
    assert (rows + [row])[..|rows|] == rows;
  }

  /** Past its first row, an update's rows only grow the group. */
  lemma {:induction false} ReadRest(rows: seq<LogRow>, update: Bytes, off: nat)
    requires 0 < off <= |update|
    requires Read(rows).group != [] && Join(Read(rows).group) == update[..off]
    ensures var r := Read(rows + RowsFrom(update, off));
      r.done == Read(rows).done && r.group != [] && Join(r.group) == update
    decreases |update| - off
  {
    if off == |update| {
      assert rows + [] == rows && update[..off] == update;
    } else {
      hide RowsFrom, Join, Read;
      var end := if off + CHUNK_BYTES < |update| then off + CHUNK_BYTES else |update|;
      var row := LogRow(update[off..end], true);
      RowsStep(update, off, end);
      Assoc(rows, [row], RowsFrom(update, end));
      ReadLast(rows, row);
      JoinLast(Read(rows).group, row.bytes);
      Grown(update, off, end);
      ReadRest(rows + [row], update, end);
    }
  }

  /** Reading one more update's rows closes the group before it. */
  lemma {:induction false} ReadUpdate(rows: seq<LogRow>, update: Bytes)
    requires update != []
    ensures var before, r := Read(rows), Read(rows + RowsFrom(update, 0));
      && r.done == before.done + (if before.group != [] then [Join(before.group)] else [])
      && r.group != [] && Join(r.group) == update
  {
    var end := if CHUNK_BYTES < |update| then CHUNK_BYTES else |update|;
    var row := LogRow(update[0..end], false);
    RowsStep(update, 0, end);
    ReadLast(rows, row);
    OneGroup(row.bytes);
    hide RowsFrom, Join;
    Assoc(rows, [row], RowsFrom(update, end));
    assert update[0..end] == update[..end];
    assert [] + [row.bytes] == [row.bytes];
    ReadRest(rows + [row], update, end);
  }

  lemma {:induction false} OneGroup(b: Bytes)
    ensures Join([b]) == b
  {
    JoinLast([], b);
    assert [] + [b] == [b] && [] + b == b;
  }

  /** Reading back what was appended yields every update whole, in order. */
  lemma {:induction false} ReadsBack(updates: seq<Bytes>)
    requires forall i :: 0 <= i < |updates| ==> updates[i] != []
    ensures var r := Read(RowsOf(updates));
      if updates == [] then r == Reading([], [])
      else r.done == updates[..|updates| - 1] && r.group != [] && Join(r.group) == updates[|updates| - 1]
    decreases |updates|
  {
    if updates != [] {
      var front, last := updates[..|updates| - 1], updates[|updates| - 1];
      ReadsBack(front);
      ReadUpdate(RowsOf(front), last);
      assert RowsOf(updates) == RowsOf(front) + RowsFrom(last, 0);
      hide RowsOf, RowsFrom, Read, Join;
      if front != [] {
        Rejoin(front, |front| - 1);
        assert front[|front| - 1..] == [front[|front| - 1]];
      }
    }
  }

  lemma {:induction false} RowsFit(update: Bytes, off: nat)
    requires off <= |update|
    ensures forall r :: r in RowsFrom(update, off) ==> 1 <= |r.bytes| <= CHUNK_BYTES
    decreases |update| - off
  {
    if off < |update| {
      RowsFit(update, if off + CHUNK_BYTES < |update| then off + CHUNK_BYTES else |update|);
    }
  }

  function Bodies(rows: seq<LogRow>): Bytes
    decreases |rows|
  {
    if rows == [] then [] else rows[0].bytes + Bodies(rows[1..])
  }

  /** The rows carry the update end to end, all full but the last, the first alone not marked as
  continuing. */
  ghost predicate Carry(rows: seq<LogRow>, update: Bytes) {
    && Bodies(rows) == update
    && forall i {:trigger rows[i]} :: 0 <= i < |rows| ==>
         && (rows[i].cont <==> i > 0) && 1 <= |rows[i].bytes| <= CHUNK_BYTES
         && (i < |rows| - 1 ==> |rows[i].bytes| == CHUNK_BYTES)
  }

  lemma {:induction false} RowsCarry(update: Bytes, off: nat)
    requires off <= |update|
    ensures var rows := RowsFrom(update, off);
      && Bodies(rows) == update[off..]
      && forall i {:trigger rows[i]} :: 0 <= i < |rows| ==>
           && (rows[i].cont <==> off > 0 || i > 0) && 1 <= |rows[i].bytes| <= CHUNK_BYTES
           && (i < |rows| - 1 ==> |rows[i].bytes| == CHUNK_BYTES)
    decreases |update| - off
  {
    if off < |update| {
      var end := if off + CHUNK_BYTES < |update| then off + CHUNK_BYTES else |update|;
      RowsStep(update, off, end);
      RowsCarry(update, end);
      var rows, rest := RowsFrom(update, off), RowsFrom(update, end);
      if end == |update| {
        RowsEnd(update);
      }
      hide RowsFrom;
      assert rows[1..] == rest && update[off..] == update[off..end] + update[end..];
    }
  }

  lemma {:induction false} RowsCarryAll(update: Bytes)
    ensures Carry(RowsFrom(update, 0), update)
  {
    RowsCarry(update, 0);
    hide RowsFrom, Bodies;
    assert update[0..] == update;
  }

  class UpdateLog {
    var rows: seq<LogRow>
    /** Every update appended that was not empty. */
    ghost var updates: seq<Bytes>

    ghost predicate Valid()
      reads this
    {
      && rows == RowsOf(updates)
      && (forall i :: 0 <= i < |updates| ==> updates[i] != [])
      && forall r :: r in rows ==> 1 <= |r.bytes| <= CHUNK_BYTES
    }

    constructor ()
      ensures Valid() && updates == []
    {
      rows, updates := [], [];
    }

    /** Store one update over as many rows as it needs, none above the cap. */
    method AppendUpdateRow(update: Bytes)
      requires Valid()
      modifies this
      ensures Valid() && updates == if update == [] then old(updates) else old(updates) + [update]
      ensures exists more :: rows == old(rows) + more && Carry(more, update)
    {
      ghost var before := rows;
      RowsFit(update, 0);
      RowsCarryAll(update);
      hide RowsOf, RowsFrom, Carry;
      var off := 0;
      while off < |update|
        invariant off <= |update| && rows + RowsFrom(update, off) == before + RowsFrom(update, 0) && updates == old(updates)
      {
        var end := if off + CHUNK_BYTES < |update| then off + CHUNK_BYTES else |update|;
        RowsStep(update, off, end);
        var row := LogRow(update[off..end], off != 0);
        Assoc(rows, [row], RowsFrom(update, end));
        rows := rows + [row];
        off := end;
      }
      RowsEnd(update);
      assert rows + [] == rows == before + RowsFrom(update, 0);
      AppendedRows(updates, update);
      if update == [] {
        assert before + [] == before;
      } else {
        updates := updates + [update];
      }
    }

    method ReadUpdateRows() returns (out: seq<Bytes>)
      requires Valid()
      ensures out == updates
    {
      out := [];
      var group: seq<Bytes> := [];
      hide RowsOf, Join;
      assert rows[..0] == [];
      for i := 0 to |rows|
        invariant Read(rows[..i]) == Reading(out, group)
      {
        ReadLast(rows[..i], rows[i]);
        assert rows[..i + 1] == rows[..i] + [rows[i]];
        if !rows[i].cont && |group| > 0 {
          var whole := JoinAll(group);
          out, group := out + [whole], [];
        }
        group := group + [rows[i].bytes];
      }
      assert rows[..|rows|] == rows;
      ReadsBack(updates);
      hide Read, RowsOf, Join;
      if |group| > 0 {
        var whole := JoinAll(group);
        out := out + [whole];
      }
      if updates != [] {
        assert updates == updates[..|updates| - 1] + [updates[|updates| - 1]];
      }
    }
  }

  method JoinAll(group: seq<Bytes>) returns (out: Bytes)
    ensures out == Join(group)
  {
    out := [];
    for i := 0 to |group|
      invariant out == Join(group[..i])
    {
      assert group[..i + 1][..i] == group[..i];
      out := out + group[i];
    }
    assert group[..|group|] == group;
  }

  lemma {:induction false} RowsStep(update: Bytes, off: nat, end: nat)
    requires off < |update| && end == if off + CHUNK_BYTES < |update| then off + CHUNK_BYTES else |update|
    ensures RowsFrom(update, off) == [LogRow(update[off..end], off != 0)] + RowsFrom(update, end)
  {
  }

  lemma {:induction false} RowsEnd(update: Bytes)
    ensures RowsFrom(update, |update|) == []
  {
  }

  lemma {:induction false} AppendedRows(updates: seq<Bytes>, update: Bytes)
    ensures RowsOf(updates + [update]) == RowsOf(updates) + RowsFrom(update, 0)
  {
    assert (updates + [update])[..|updates|] == updates;
  }
}
