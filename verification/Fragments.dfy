/** Sending updates in frames under the message cap, and putting fragments back together
(edge/src/session-room.ts:807-885, 1329-1382). */
module Fragments {
  import opened Wrappers
  import opened Seqs
  import opened ByteSeq
  import opened UpdateLog

  const FRAGMENT_BYTES := 200_000
  const MAX_REASSEMBLED_BYTES := 32 * 1024 * 1024
  const MAX_FRAGMENT_COUNT := 4096

  type BatchId = nat

  datatype Frame =
    | Update(batch: BatchId, updates: seq<Bytes>)
    | Header(batch: BatchId, fragmentCount: nat, totalSize: nat)
    | Fragment(batch: BatchId, index: nat, bytes: Bytes)

  function Count(update: Bytes): nat {
    (|update| + FRAGMENT_BYTES - 1) / FRAGMENT_BYTES
  }

  function Piece(update: Bytes, i: nat): Bytes
    requires i < Count(update)
  {
    var end := if (i + 1) * FRAGMENT_BYTES < |update| then (i + 1) * FRAGMENT_BYTES else |update|;
    update[i * FRAGMENT_BYTES..end]
  }

  function Pieces(update: Bytes): (out: seq<Bytes>)
    ensures |out| == Count(update)
  {
    seq(Count(update), i requires 0 <= i < Count(update) => Piece(update, i))
  }

  /** The fragments, in order, are the update; none is empty or above the cap. */
  lemma {:induction false} PiecesJoin(update: Bytes, n: nat)
    requires n <= Count(update)
    ensures Join(Pieces(update)[..n]) == update[..if n * FRAGMENT_BYTES < |update| then n * FRAGMENT_BYTES else |update|]
    ensures forall i :: 0 <= i < n ==> 1 <= |Pieces(update)[i]| <= FRAGMENT_BYTES
    decreases n
  {
    if n == 0 {
      assert Pieces(update)[..0] == [] && update[..0] == [];
    } else {
      var all := Pieces(update);
      PiecesJoin(update, n - 1);
      assert all[..n] == all[..n - 1] + [all[n - 1]];
      JoinLast(all[..n - 1], all[n - 1]);
      PieceAt(update, n - 1);
    }
  }

  lemma {:induction false} PieceAt(update: Bytes, i: nat)
    requires i < Count(update)
    ensures var start, end := i * FRAGMENT_BYTES, if (i + 1) * FRAGMENT_BYTES < |update| then (i + 1) * FRAGMENT_BYTES else |update|;
      && start < end && end - start <= FRAGMENT_BYTES && |Piece(update, i)| == end - start
      && update[..start] + Piece(update, i) == update[..end]
  {
  }

  lemma {:induction false} AllPiecesJoin(update: Bytes)
    ensures Join(Pieces(update)) == update
    ensures forall i :: 0 <= i < Count(update) ==> 1 <= |Pieces(update)[i]| <= FRAGMENT_BYTES
    ensures forall i :: 0 <= i < Count(update) - 1 ==> |Pieces(update)[i]| == FRAGMENT_BYTES
  {
    PiecesJoin(update, Count(update));
    forall i | 0 <= i < Count(update) - 1 ensures |Pieces(update)[i]| == FRAGMENT_BYTES {
      PieceAt(update, i);
      PieceAt(update, i + 1);
    }
    assert Pieces(update)[..Count(update)] == Pieces(update);
    assert update[..|update|] == update;
  }

  lemma {:induction false} AllPieces(parts: seq<Bytes>, update: Bytes)
    requires |parts| == Count(update) && forall i :: 0 <= i < |parts| ==> parts[i] == Piece(update, i)
    ensures parts == Pieces(update)
  {
    hide Piece, Count;
  }

  // ── sending ───────────────────────────────────────────────────────────────

  function Small(updates: seq<Bytes>): seq<Bytes>
    decreases |updates|
  {
    if updates == [] then []
    else Small(updates[..|updates| - 1]) + (if |updates[|updates| - 1]| <= FRAGMENT_BYTES then [updates[|updates| - 1]] else [])
  }

  /** What the update frames carry, end to end. */
  function Carried(frames: seq<Frame>): seq<Bytes>
    decreases |frames|
  {
    if frames == [] then []
    else Carried(frames[..|frames| - 1]) + (if frames[|frames| - 1].Update? then frames[|frames| - 1].updates else [])
  }

  /** The frames of one oversized update: a header, then every fragment in turn. */
  function Fragmented(batch: BatchId, update: Bytes): seq<Frame> {
    [Header(batch, Count(update), |update|)]
    + seq(Count(update), i requires 0 <= i < Count(update) => Fragment(batch, i, Piece(update, i)))
  }

  /** The frames of every oversized update, in order, under consecutive batch ids. */
  function AllFragmented(updates: seq<Bytes>, batch: BatchId): seq<Frame>
    decreases |updates|
  {
    if updates == [] then []
    else
      var front, last := updates[..|updates| - 1], updates[|updates| - 1];
      AllFragmented(front, batch) + (if |last| > FRAGMENT_BYTES then Fragmented(batch + |Large(front)|, last) else [])
  }

  function Bodies(frames: seq<Frame>): seq<Bytes>
    requires forall i :: 0 <= i < |frames| ==> frames[i].Fragment?
  {
    seq(|frames|, i requires 0 <= i < |frames| => frames[i].bytes)
  }

  /** What goes out for an oversized update: a header that tells how many fragments follow and how long
  they are together, and the fragments under the same id, numbered from zero, which joined are it. */
  lemma {:induction false} FragmentedTold(batch: BatchId, update: Bytes)
    ensures var frames := Fragmented(batch, update);
      && frames != [] && frames[0] == Header(batch, |frames| - 1, |update|)
      && (forall i :: 1 <= i < |frames| ==> frames[i].Fragment? && frames[i].batch == batch && frames[i].index == i - 1)
      && Join(Bodies(frames[1..])) == update
  {
    var frames := Fragmented(batch, update);
    AllPiecesJoin(update);
    assert Bodies(frames[1..]) == Pieces(update);
  }

  function Headers(frames: seq<Frame>): seq<Frame>
    decreases |frames|
  {
    if frames == [] then []
    else Headers(frames[..|frames| - 1]) + (if frames[|frames| - 1].Header? then [frames[|frames| - 1]] else [])
  }

  lemma {:induction false} HeadersConcat(x: seq<Frame>, y: seq<Frame>)
    ensures Headers(x + y) == Headers(x) + Headers(y)
    decreases |y|
  {
    if y == [] {
      assert x + y == x;
    } else {
      assert (x + y)[..|x + y| - 1] == x + y[..|y| - 1];
      HeadersConcat(x, y[..|y| - 1]);
    }
  }

  lemma {:induction false} OneHeader(batch: BatchId, update: Bytes)
    ensures Headers(Fragmented(batch, update)) == [Header(batch, Count(update), |update|)]
  {
    var head := Header(batch, Count(update), |update|);
    var rest := seq(Count(update), i requires 0 <= i < Count(update) => Fragment(batch, i, Piece(update, i)));
    HeadersConcat([head], rest);
    NoHeaders(rest);
    assert [head][..0] == [] && Headers([]) == [];
  }

  lemma {:induction false} NoHeaders(frames: seq<Frame>)
    requires forall i :: 0 <= i < |frames| ==> !frames[i].Header?
    ensures Headers(frames) == []
    decreases |frames|
  {
    if frames != [] {
      NoHeaders(frames[..|frames| - 1]);
    }
  }

  /** Each update announced once, in order, under consecutive ids. */
  ghost predicate Announces(headers: seq<Frame>, large: seq<Bytes>, batch: BatchId) {
    && |headers| == |large|
    && forall j :: 0 <= j < |large| ==> headers[j] == Header(batch + j, Count(large[j]), |large[j]|)
  }

  lemma {:induction false} NoneAnnounced(batch: BatchId)
    ensures Announces(Headers(AllFragmented([], batch)), Large([]), batch)
  {
  }

  lemma {:induction false} AnnouncesMore(headers: seq<Frame>, large: seq<Bytes>, batch: BatchId, update: Bytes)
    requires Announces(headers, large, batch)
    ensures Announces(headers + [Header(batch + |large|, Count(update), |update|)], large + [update], batch)
  {
    hide Count;
  }

  /** The oversized updates go out one after another. */
  lemma {:induction false} AnnouncedInOrder(updates: seq<Bytes>, batch: BatchId)
    ensures Announces(Headers(AllFragmented(updates, batch)), Large(updates), batch)
    decreases |updates|
  {
    hide Fragmented, AllFragmented, Large, Headers, Count, Announces;
    if updates == [] {
      NoneAnnounced(batch);
    } else {
      var front, last := updates[..|updates| - 1], updates[|updates| - 1];
      AnnouncedInOrder(front, batch);
      assert updates == front + [last];
      LargeMore(front, last);
      FragmentedMore(front, last, batch);
      if |last| > FRAGMENT_BYTES {
        OneHeader(batch + |Large(front)|, last);
        HeadersConcat(AllFragmented(front, batch), Fragmented(batch + |Large(front)|, last));
        AnnouncesMore(Headers(AllFragmented(front, batch)), Large(front), batch, last);
      } else {
        ConcatEmpty(AllFragmented(front, batch));
        ConcatEmpty(Large(front));
      }
    }
  }

  function Large(updates: seq<Bytes>): seq<Bytes>
    decreases |updates|
  {
    if updates == [] then []
    else Large(updates[..|updates| - 1]) + (if |updates[|updates| - 1]| > FRAGMENT_BYTES then [updates[|updates| - 1]] else [])
  }

  /** Each update is either small or large, and kept as often and in the order it came. */
  lemma {:induction false} SmallOrLarge(updates: seq<Bytes>)
    ensures multiset(Small(updates)) + multiset(Large(updates)) == multiset(updates)
    ensures (forall u :: u in Small(updates) ==> |u| <= FRAGMENT_BYTES) && forall u :: u in Large(updates) ==> |u| > FRAGMENT_BYTES
    decreases |updates|
  {
    if updates != [] {
      var front, last := updates[..|updates| - 1], updates[|updates| - 1];
      assert updates == front + [last];
      SmallOrLarge(front);
    }
  }

  predicate Capped(f: Frame) {
    match f
    case Update(_, updates) => updates != [] && |Join(updates)| <= FRAGMENT_BYTES
    case Header(_, _, _) => true
    case Fragment(_, _, bytes) => |bytes| <= FRAGMENT_BYTES
  }

  /** Small updates travel batched, in order; large ones as fragments, in order; each exactly once
  and no frame above the cap. */
  method SendUpdates(updates: seq<Bytes>, firstBatch: BatchId) returns (frames: seq<Frame>, ghost batched: seq<Frame>, ghost next: BatchId)
    ensures frames == batched + AllFragmented(updates, next) && next == firstBatch + |batched|
    ensures Carried(batched) == Small(updates) && Batched(batched, firstBatch)
    ensures forall i :: 0 <= i < |frames| ==> Capped(frames[i])
  {
    hide Capped, AllFragmented, Carried, Small, Batched;
    var small, id := SendSmall(updates, firstBatch);
    var large := SendAllLarge(updates, id);
    batched, next := small, id;
    frames := small + large;
  }

  method SendAllLarge(updates: seq<Bytes>, base: BatchId) returns (frames: seq<Frame>)
    ensures frames == AllFragmented(updates, base)
    ensures forall i :: 0 <= i < |frames| ==> Capped(frames[i])
  {
    hide Capped, Fragmented, AllFragmented, Large;
    var id := base;
    frames := [];
    NoneLarge(id);
    ghost var seen: seq<Bytes> := [];
    for i := 0 to |updates|
      invariant seen == updates[..i] && id == base + |Large(seen)|
      invariant frames == AllFragmented(seen, base)
      invariant forall j :: 0 <= j < |frames| ==> Capped(frames[j])
    {
      var u := updates[i];
      LargeMore(seen, u);
      FragmentedMore(seen, u, base);
      if |u| > FRAGMENT_BYTES {
        var more := SendLarge(id, u);
        frames, id := frames + more, id + 1;
      }
      seen := seen + [u];
    }
    assert updates[..|updates|] == updates;
  }

  lemma {:induction false} NoneLarge(id: BatchId)
    ensures AllFragmented([], id) == [] && Large([]) == []
  {
  }

  lemma {:induction false} LargeMore(seen: seq<Bytes>, u: Bytes)
    ensures Large(seen + [u]) == Large(seen) + (if |u| > FRAGMENT_BYTES then [u] else [])
  {
    assert (seen + [u])[..|seen|] == seen;
  }

  lemma {:induction false} FragmentedMore(seen: seq<Bytes>, u: Bytes, batch: BatchId)
    ensures AllFragmented(seen + [u], batch) == AllFragmented(seen, batch)
      + (if |u| > FRAGMENT_BYTES then Fragmented(batch + |Large(seen)|, u) else [])
  {
    hide Fragmented, Large;
    assert (seen + [u])[..|seen|] == seen;
  }

  /** Update frames under consecutive ids, none empty, and no two neighbours that one could hold. */
  ghost predicate Batched(frames: seq<Frame>, firstBatch: BatchId) {
    && (forall i :: 0 <= i < |frames| ==> frames[i].Update? && frames[i].batch == firstBatch + i && frames[i].updates != [])
    && forall i {:trigger frames[i]} :: 0 < i < |frames| ==> |Join(frames[i - 1].updates)| + |frames[i].updates[0]| > FRAGMENT_BYTES
  }

  /** The batch being filled could not have gone into the last frame. */
  ghost predicate Overflows(frames: seq<Frame>, batch: seq<Bytes>) {
    frames != [] && batch != [] ==>
      frames[|frames| - 1].Update? && |Join(frames[|frames| - 1].updates)| + |batch[0]| > FRAGMENT_BYTES
  }

  /** The small updates seen are in the frames sent, and in the batch being filled. */
  ghost predicate Filling(frames: seq<Frame>, id: BatchId, batch: seq<Bytes>, batchBytes: nat, firstBatch: BatchId, seen: seq<Bytes>) {
    && Carried(frames) + batch == Small(seen) && id == firstBatch + |frames|
    && batchBytes == |Join(batch)| <= FRAGMENT_BYTES && Batched(frames, firstBatch) && Overflows(frames, batch)
    && (batch == [] ==> frames == []) && forall j :: 0 <= j < |frames| ==> Capped(frames[j])
  }

  method SendSmall(updates: seq<Bytes>, firstBatch: BatchId) returns (frames: seq<Frame>, id: BatchId)
    ensures Carried(frames) == Small(updates) && id == firstBatch + |frames| && Batched(frames, firstBatch)
    ensures forall i :: 0 <= i < |frames| ==> Capped(frames[i])
  {
    frames, id := [], firstBatch;
    var batch: seq<Bytes> := [];
    var batchBytes := 0;
    NoneBatched(firstBatch);
    assert updates[..0] == [];
    hide Filling;
    for i := 0 to |updates|
      invariant Filling(frames, id, batch, batchBytes, firstBatch, updates[..i])
    {
      assert updates[..i + 1] == updates[..i] + [updates[i]];
      frames, id, batch, batchBytes := TakeSmall(frames, id, batch, batchBytes, updates[i], firstBatch, updates[..i]);
    }
    assert updates[..|updates|] == updates;
    Filled(frames, id, batch, batchBytes, firstBatch, updates);
    hide Carried, Small, Batched, Overflows, Capped, Join;
    frames, id := Flush(frames, id, batch, firstBatch);
  }

  lemma {:induction false} Filled(frames: seq<Frame>, id: BatchId, batch: seq<Bytes>, batchBytes: nat, firstBatch: BatchId, seen: seq<Bytes>)
    requires Filling(frames, id, batch, batchBytes, firstBatch, seen)
    ensures Carried(frames) + batch == Small(seen) && id == firstBatch + |frames|
    ensures batchBytes == |Join(batch)| <= FRAGMENT_BYTES && (batch == [] ==> batchBytes == 0)
    ensures Batched(frames, firstBatch) && Overflows(frames, batch)
    ensures forall j :: 0 <= j < |frames| ==> Capped(frames[j])
  {
  }

  /** One update of the loop: a small one joins the batch, after a flush if it would not fit. */
  method TakeSmall(frames: seq<Frame>, id: BatchId, batch: seq<Bytes>, batchBytes: nat, u: Bytes, ghost firstBatch: BatchId, ghost seen: seq<Bytes>)
    returns (frames': seq<Frame>, id': BatchId, batch': seq<Bytes>, batchBytes': nat)
    requires Filling(frames, id, batch, batchBytes, firstBatch, seen)
    ensures Filling(frames', id', batch', batchBytes', firstBatch, seen + [u])
  {
    hide Filling, Carried, Small, Batched, Overflows, Capped, Join;
    frames', id', batch', batchBytes' := frames, id, batch, batchBytes;
    Filled(frames, id, batch, batchBytes, firstBatch, seen);
    if |u| > FRAGMENT_BYTES {
      PassedBy(frames, id, batch, batchBytes, u, firstBatch, seen);
      return;
    }
    if batchBytes + |u| > FRAGMENT_BYTES {
      frames', id' := Flush(frames, id, batch, firstBatch);
      StartedOver(frames, id, batch, u, firstBatch, seen);
      batch', batchBytes' := [u], |u|;
    } else {
      Joined(frames, id, batch, batchBytes, u, firstBatch, seen);
      batch', batchBytes' := batch + [u], batchBytes + |u|;
    }
  }

  lemma {:induction false} PassedBy(frames: seq<Frame>, id: BatchId, batch: seq<Bytes>, batchBytes: nat, u: Bytes, firstBatch: BatchId, seen: seq<Bytes>)
    requires Filling(frames, id, batch, batchBytes, firstBatch, seen) && |u| > FRAGMENT_BYTES
    ensures Filling(frames, id, batch, batchBytes, firstBatch, seen + [u])
  {
    SmallMore(seen, u);
    hide Carried, Small, Batched, Overflows, Capped, Join;
    ConcatEmpty(Small(seen));
  }

  lemma {:induction false} Joined(frames: seq<Frame>, id: BatchId, batch: seq<Bytes>, batchBytes: nat, u: Bytes, firstBatch: BatchId, seen: seq<Bytes>)
    requires Filling(frames, id, batch, batchBytes, firstBatch, seen) && |u| <= FRAGMENT_BYTES && batchBytes + |u| <= FRAGMENT_BYTES
    ensures Filling(frames, id, batch + [u], batchBytes + |u|, firstBatch, seen + [u])
  {
    SmallMore(seen, u);
    JoinLast(batch, u);
    OverflowsStill(frames, batch, u);
    hide Carried, Small, Batched, Overflows, Capped, Join;
    Assoc(Carried(frames), batch, [u]);
  }

  /** After a flush the update starts the next batch. */
  lemma {:induction false} StartedOver(before: seq<Frame>, id: BatchId, batch: seq<Bytes>, u: Bytes, firstBatch: BatchId, seen: seq<Bytes>)
    requires batch != [] && |Join(batch)| + |u| > FRAGMENT_BYTES && |u| <= FRAGMENT_BYTES
    requires var frames := before + [Update(id, batch)];
      && Carried(frames) == Small(seen) && id + 1 == firstBatch + |frames| && Batched(frames, firstBatch)
      && forall j :: 0 <= j < |frames| ==> Capped(frames[j])
    ensures Filling(before + [Update(id, batch)], id + 1, [u], |u|, firstBatch, seen + [u])
  {
    SmallMore(seen, u);
    OverflowsNext(before, id, batch, u);
    JoinLast([], u);
    assert [] + [u] == [u] && [] + u == u;
    hide Carried, Small, Batched, Overflows, Capped;
  }

  lemma {:induction false} NoneBatched(firstBatch: BatchId)
    ensures Filling([], firstBatch, [], 0, firstBatch, [])
  {
  }

  lemma {:induction false} SmallMore(updates: seq<Bytes>, u: Bytes)
    ensures Small(updates + [u]) == Small(updates) + (if |u| <= FRAGMENT_BYTES then [u] else [])
  {
    assert (updates + [u])[..|updates|] == updates;
  }

  lemma {:induction false} OverflowsStill(frames: seq<Frame>, batch: seq<Bytes>, u: Bytes)
    requires Overflows(frames, batch) && (batch == [] ==> frames == [])
    ensures Overflows(frames, batch + [u])
  {
  }

  lemma {:induction false} OverflowsNext(before: seq<Frame>, id: BatchId, batch: seq<Bytes>, u: Bytes)
    requires batch != [] && |Join(batch)| + |u| > FRAGMENT_BYTES
    ensures Overflows(before + [Update(id, batch)], [u]) && Overflows(before + [Update(id, batch)], [] + [u])
  {
    assert [] + [u] == [u];
  }

  method Flush(frames: seq<Frame>, id: BatchId, batch: seq<Bytes>, ghost firstBatch: BatchId) returns (out: seq<Frame>, next: BatchId)
    requires |Join(batch)| <= FRAGMENT_BYTES && id == firstBatch + |frames|
    requires Batched(frames, firstBatch) && Overflows(frames, batch)
    ensures out == (if batch == [] then frames else frames + [Update(id, batch)]) && next == firstBatch + |out|
    ensures Carried(out) == Carried(frames) + batch && Batched(out, firstBatch)
    ensures (forall j :: 0 <= j < |frames| ==> Capped(frames[j])) ==> forall j :: 0 <= j < |out| ==> Capped(out[j])
  {
    if |batch| == 0 {
      return frames, id;
    }
    out := frames + [Update(id, batch)];
    assert out[..|out| - 1] == frames;
    forall i | 0 < i < |out| ensures |Join(out[i - 1].updates)| + |out[i].updates[0]| > FRAGMENT_BYTES {
      assert i < |frames| ==> out[i] == frames[i];
    }
    next := id + 1;
  }

  method SendLarge(batch: BatchId, update: Bytes) returns (frames: seq<Frame>)
    ensures frames == Fragmented(batch, update)
    ensures forall i :: 0 <= i < |frames| ==> Capped(frames[i])
  {
    var count := Count(update);
    PiecesJoin(update, count);
    frames := [Header(batch, count, |update|)];
    ghost var all := Fragmented(batch, update);
    for i := 0 to count
      invariant frames == all[..i + 1]
      invariant forall j :: 0 <= j < |frames| ==> Capped(frames[j])
    {
      var end := if (i + 1) * FRAGMENT_BYTES < |update| then (i + 1) * FRAGMENT_BYTES else |update|;
      assert Pieces(update)[i] == Piece(update, i) && all[i + 1] == Fragment(batch, i, Piece(update, i));
      assert i * FRAGMENT_BYTES <= end;
      frames := frames + [Fragment(batch, i, update[i * FRAGMENT_BYTES..end])];
    }
    assert all[..|all|] == all;
  }

  // ── receiving ─────────────────────────────────────────────────────────────

  predicate Admitted(fragmentCount: nat, totalSize: nat) {
    totalSize <= MAX_REASSEMBLED_BYTES && fragmentCount <= MAX_FRAGMENT_COUNT
  }

  /** Of the two limits a fragment header has to pass, the sender's own batches only ever meet the
  size limit. */
  lemma {:induction false} SizeDecides(update: Bytes)
    ensures Admitted(Count(update), |update|) <==> |update| <= MAX_REASSEMBLED_BYTES
  {
    if |update| <= MAX_REASSEMBLED_BYTES {
      assert Count(update) * FRAGMENT_BYTES < |update| + FRAGMENT_BYTES;
    }
  }

  lemma {:induction false} IndexCount(n: nat) returns (all: set<nat>)
    ensures |all| == n && forall i :: i in all <==> 0 <= i < n
    decreases n
  {
    if n == 0 {
      all := {};
    } else {
      var front := IndexCount(n - 1);
      all := front + {n - 1};
    }
  }

  lemma {:induction false} AllGot(got: set<nat>, n: nat)
    requires forall i :: i in got ==> i < n
    requires |got| >= n
    ensures forall i :: 0 <= i < n ==> i in got
  {
    var all := IndexCount(n);
    assert got <= all;
    var rest := all - got;
    assert all == got + rest && |all| == |got| + |rest|;
    assert rest == {};
  }

  /** Each fragment that arrived is in its place, and nothing else is. */
  ghost predicate Placed(parts: seq<Bytes>, got: set<nat>, source: Bytes)
    requires |parts| == Count(source)
  {
    && (forall i :: i in got ==> i < |parts|)
    && forall i :: 0 <= i < |parts| ==> parts[i] == if i in got then Piece(source, i) else []
  }

  lemma {:induction false} PlaceOne(parts: seq<Bytes>, got: set<nat>, source: Bytes, index: nat)
    requires |parts| == Count(source) && Placed(parts, got, source) && index < |parts|
    ensures Placed(parts[index := Piece(source, index)], got + {index}, source)
  {
  }

  /** One batch being reassembled. `source` is what its sender cut. */
  class Reassembly {
    var parts: seq<Bytes>
    var received: nat
    const totalSize: nat
    ghost const source: Bytes
    ghost var got: set<nat>

    ghost predicate Valid()
      reads this
    {
      && |parts| == Count(source) && totalSize == |source|
      && received == |got| && Placed(parts, got, source)
    }

    constructor (header: Frame, ghost source: Bytes)
      requires header.Header? && header.fragmentCount == Count(source) && header.totalSize == |source|
      ensures Valid() && got == {} && this.source == source
    {
      parts := seq(header.fragmentCount, _ => []);
      received, totalSize, this.source, got := 0, header.totalSize, source, {};
    }

    /** Each fragment arrives once, in any order: the last one completes the sender's update. */
    method Receive(index: nat, fragment: Bytes) returns (whole: Option<Bytes>)
      requires Valid() && index < Count(source) && index !in got && fragment == Piece(source, index)
      modifies this
      ensures Valid() && got == old(got) + {index}
      ensures whole == if |got| < Count(source) then None else Some(source)
    {
      PlaceOne(parts, got, source, index);
      hide Placed, Piece, Join, Pieces;
      parts := parts[index := fragment];
      received := received + 1;
      got := got + {index};
      if received < |parts| {
        return None;
      }
      Complete(parts, got, source);
      var total := JoinAll(parts);
      return Some(total);
    }
  }

  /** With every fragment in, the parts joined are the update. */
  lemma {:induction false} Complete(parts: seq<Bytes>, got: set<nat>, source: Bytes)
    requires |parts| == Count(source) <= |got| && Placed(parts, got, source)
    ensures Join(parts) == source
  {
    AllGot(got, |parts|);
    AllPieces(parts, source);
    AllPiecesJoin(source);
  }
}
