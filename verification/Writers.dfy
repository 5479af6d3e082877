/** What the replica's clock makes of the writes of one device: a rising sequence, so that a writer
of whole rows meets what exactly-once delivery asks of it
(crates/doc/src/registry.rs:54-91, 954-964). */
module Writers {
  import opened Wrappers
  import opened Hlc
  import opened RegistryCore
  import opened Queue
  import opened RowTable
  import opened PendingQueue
  import opened RegistryDoc
  import opened WriteReplay

  /** Where thirteen digits of milliseconds end. */
  const CLOCK_END := 10_000_000_000_000

  /** A reading of the device's clock. */
  datatype Reading = Reading(ms: nat, counter: nat)

  predicate Rises(a: Reading, b: Reading) {
    a.ms < b.ms || (a.ms == b.ms && a.counter < b.counter)
  }

  /** Later readings of one device are newer clocks, as `apply_op` compares them. */
  lemma {:induction false} LaterIsNewer(a: Reading, b: Reading, device: string)
    requires Rises(a, b) && b.ms < CLOCK_END && a.counter <= 999_999 && b.counter <= 999_999
    ensures Position(EncodeHlc(a.ms, a.counter, device)) < Position(EncodeHlc(b.ms, b.counter, device))
  {
    EncodeOrder(a.ms, a.counter, device, b.ms, b.counter, device);
  }

  predicate StampedAt(op: Op, r: Reading, device: string) {
    r.counter <= 999_999 && op.hlc == Position(EncodeHlc(r.ms, r.counter, device))
  }

  /** Each op under the clock of one reading, the readings rising. */
  ghost predicate Stamps(log: seq<Op>, readings: seq<Reading>, device: string) {
    && |readings| == |log|
    && (forall i :: 0 <= i < |log| ==> StampedAt(log[i], readings[i], device))
    && (forall i, j {:trigger Rises(readings[i], readings[j])} :: 0 <= i < j < |readings| ==> Rises(readings[i], readings[j]))
  }

  lemma {:induction false} StampedRising(log: seq<Op>, readings: seq<Reading>, device: string)
    requires Stamps(log, readings, device) && (readings != [] ==> readings[|readings| - 1].ms < CLOCK_END)
    ensures forall i, j {:trigger Before(log[i], log[j])} :: 0 <= i < j < |log| ==> Before(log[i], log[j])
  {
    forall i, j | 0 <= i < j < |log| ensures Before(log[i], log[j]) {
      assert Rises(readings[i], readings[j]) && StampedAt(log[i], readings[i], device) && StampedAt(log[j], readings[j], device);
      assert j < |readings| - 1 ==> Rises(readings[j], readings[|readings| - 1]);
      LaterIsNewer(readings[i], readings[j], device);
    }
  }

  datatype Change = Change(op: OpKind, writes: map<string, Value>)

  lemma {:induction false} StampsMore(log: seq<Op>, readings: seq<Reading>, device: string, op: Op, r: Reading)
    requires Stamps(log, readings, device) && StampedAt(op, r, device)
    requires readings != [] ==> Rises(readings[|readings| - 1], r)
    ensures Stamps(log + [op], readings + [r], device)
  {
    var more := readings + [r];
    hide StampedAt;
    forall i, j | 0 <= i < j < |more| ensures Rises(more[i], more[j]) {
      if j < |readings| {
        assert Rises(readings[i], readings[j]);
      } else {
        assert i < |readings| - 1 ==> Rises(readings[i], readings[|readings| - 1]);
      }
    }
  }

  /** Writes to one row, one after the other, whatever the wall clock reads: the display takes each
  in order, and while the clock has thirteen digits they are a whole-row writer's. */
  method WriteAll(doc: RegistryDoc, key: Key, changes: seq<Change>, schema: set<string>) returns (ghost log: seq<Op>)
    requires doc.Valid()
    requires forall i :: 0 <= i < |changes| ==> changes[i].op != Delete && changes[i].writes.Keys <= schema
    requires forall i :: 0 <= i < |changes| && changes[i].op == Upsert ==> changes[i].writes.Keys == schema
    modifies doc, doc.clock
    ensures doc.Valid() && |log| == |changes|
    ensures forall i :: 0 <= i < |log| ==> log[i] == Op(key, changes[i].op, Some(changes[i].writes), log[i].hlc, None)
    ensures forall k :: doc.Display(k) == FoldOps(old(doc.Display(k)), log, k)
    ensures doc.clock.lastMs < CLOCK_END ==> WholeRows(log, key, schema) && Disciplined(log, key)
  {
    log := [];
    ghost var readings: seq<Reading> := [];
    hide Shipshape, QueueValid, Queued, Stamps, WholeRows, Disciplined, Fold;
    NoStamps(doc.deviceId);
    forall k ensures FoldOps(doc.Display(k), [], k) == doc.Display(k) {
    }
    hide FoldOps;
    for n := 0 to |changes|
      invariant doc.Valid() && |log| == n && Stamps(log, readings, doc.deviceId) && |readings| == n
      invariant n > 0 ==> doc.Reached(readings[n - 1].ms, readings[n - 1].counter)
      invariant forall i :: 0 <= i < n ==> log[i] == Op(key, changes[i].op, Some(changes[i].writes), log[i].hlc, None)
      invariant forall k :: doc.Display(k) == FoldOps(old(doc.Display(k)), log, k)
    {
      ghost var ms, counter := doc.clock.lastMs, doc.clock.counter;
      ghost var written, trail;
      written, trail := doc.Write(key, changes[n].op, changes[n].writes);
      ghost var m: nat, c: nat :| written.hlc == Position(EncodeHlc(m, c, doc.deviceId)) && c <= 999_999
        && doc.Reached(m, c) && (ms < m || (ms == m && counter < c));
      StampsMore(log, readings, doc.deviceId, written, Reading(m, c));
      forall k ensures FoldOps(old(doc.Display(k)), log + [written], k) == FoldOps(FoldOps(old(doc.Display(k)), log, k), [written], k) {
        FoldOpsConcat(old(doc.Display(k)), log, [written], k);
      }
      log, readings := log + [written], readings + [Reading(m, c)];
    }
    if doc.clock.lastMs < CLOCK_END {
      StampedRising(log, readings, doc.deviceId);
      AllWhole(log, key, changes, schema);
      WholeRowsDisciplined(log, key, schema);
    }
  }

  lemma {:induction false} NoStamps(device: string)
    ensures Stamps([], [], device)
  {
  }

  lemma {:induction false} AllWhole(log: seq<Op>, key: Key, changes: seq<Change>, schema: set<string>)
    requires |log| == |changes|
    requires forall i :: 0 <= i < |changes| ==> changes[i].writes.Keys <= schema
    requires forall i :: 0 <= i < |changes| && changes[i].op == Upsert ==> changes[i].writes.Keys == schema
    requires forall i :: 0 <= i < |log| ==> log[i] == Op(key, changes[i].op, Some(changes[i].writes), log[i].hlc, None)
    requires forall i, j {:trigger Before(log[i], log[j])} :: 0 <= i < j < |log| ==> Before(log[i], log[j])
    ensures WholeRows(log, key, schema)
  {
  }
}
