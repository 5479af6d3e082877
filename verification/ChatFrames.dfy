/** Binary chat frames, and bodies of length-prefixed frames (edge/src/chat-frames.ts:65-101,
edge/src/chat-room.ts:224-236; read back at crates/sync/src/chat_client.rs:1537-1551). */
module ChatFrames {
  import opened Wrappers
  import opened Seqs
  import opened ByteSeq

  const MAX_HEADER_BYTES := 4096
  const U32 := 0x1_0000_0000

  /** The header is its JSON text. */
  datatype Frame = Frame(kind: uint8, header: Bytes, payload: Bytes)

  predicate KnownType(kind: uint8) {
    0x01 <= kind <= 0x0B
  }

  /** Little-endian, as `setUint32(…, true)` writes it. */
  function LE32(n: nat): (out: Bytes)
    requires n < U32
    ensures |out| == 4
  {
    [(n % 256) as uint8, (n / 256 % 256) as uint8, (n / 65536 % 256) as uint8, (n / 16777216) as uint8]
  }

  lemma {:induction false} LittleEndian(n: nat)
    requires n < U32
    ensures var b := LE32(n); b[0] as nat + 0x100 * b[1] as nat + 0x1_0000 * b[2] as nat + 0x100_0000 * b[3] as nat == n
  {
    LE32RoundTrip(n);
  }

  function FromLE32(b: Bytes): nat
    requires |b| == 4
  {
    b[0] as nat + b[1] as nat * 256 + b[2] as nat * 65536 + b[3] as nat * 16777216
  }

  lemma {:induction false} LE32RoundTrip(n: nat)
    requires n < U32
    ensures FromLE32(LE32(n)) == n
  {
    var a, b := n / 256, n / 65536;
    assert n == a * 256 + n % 256;
    assert a == n / 65536 * 256 + a % 256;
    assert b == n / 16777216 * 256 + b % 256;
  }

  function Encoded(f: Frame): (out: Bytes)
    requires |f.header| < U32
    ensures |out| == 5 + |f.header| + |f.payload|
  {
    [f.kind] + LE32(|f.header|) + f.header + f.payload
  }

  /** `encodeFrame` fills a buffer in place. */
  method EncodeFrame(f: Frame) returns (out: array<uint8>)
    requires |f.header| < U32
    ensures fresh(out) && out[..] == Encoded(f)
    ensures out.Length == 5 + |f.header| + |f.payload| && out[0] == f.kind
    ensures out[1] as nat + 0x100 * out[2] as nat + 0x1_0000 * out[3] as nat + 0x100_0000 * out[4] as nat == |f.header|
    ensures out[5..5 + |f.header|] == f.header && out[5 + |f.header|..] == f.payload
  {
    var n, m := |f.header|, |f.payload|;
    ghost var all := Encoded(f);
    var length := LE32(n);
    out := new uint8[5 + n + m];
    EncodedAt(f);
    hide LE32, Encoded;
    out[0] := f.kind;
    assert out[..1] == all[..1];
    PutBytes(out, 1, length, all);
    PutBytes(out, 5, f.header, all);
    PutBytes(out, 5 + n, f.payload, all);
    assert out[..5 + n + m] == out[..] && all[..5 + n + m] == all;
    LittleEndian(n);
    assert out[1..5] == all[1..5] == length;
    assert out[5..5 + n] == all[5..5 + n] && out[5 + n..] == all[5 + n..];
    assert out[1] == length[0] && out[2] == length[1] && out[3] == length[2] && out[4] == length[3];
  }

  lemma {:induction false} EncodedAt(f: Frame)
    requires |f.header| < U32
    ensures var all := Encoded(f);
      && all[0] == f.kind && LE32(|f.header|) <= all[1..] && f.header <= all[5..] && f.payload <= all[5 + |f.header|..]
      && all[1..5] == LE32(|f.header|) && all[5..5 + |f.header|] == f.header && all[5 + |f.header|..] == f.payload
  {
  }

  /** `json` says which header bytes parse as an object. */
  function DecodeFrame(bytes: Bytes, json: Bytes -> bool): Option<Frame> {
    if |bytes| < 5 || !KnownType(bytes[0]) then None
    else
      var headerLen := FromLE32(bytes[1..5]);
      if headerLen > MAX_HEADER_BYTES || 5 + headerLen > |bytes| then None
      else
        var header := bytes[5..5 + headerLen];
        if json(header) then Some(Frame(bytes[0], header, bytes[5 + headerLen..])) else None
  }

  /** A frame reads back, and reads back as itself, exactly when its type is known and its header
  is an object within the limit. */
  lemma {:induction false} FrameRoundTrip(f: Frame, json: Bytes -> bool)
    requires |f.header| < U32
    ensures 0x01 <= f.kind <= 0x0B && |f.header| <= 4096 && json(f.header) <==> DecodeFrame(Encoded(f), json) == Some(f)
    ensures !(0x01 <= f.kind <= 0x0B && |f.header| <= 4096 && json(f.header)) <==> DecodeFrame(Encoded(f), json) == None
  {
    EncodedAt(f);
    LE32RoundTrip(|f.header|);
    hide LE32, Encoded, FromLE32;
  }

  /** Whatever bytes decode are the frame's own encoding. */
  lemma {:induction false} DecodedIsEncoded(bytes: Bytes, json: Bytes -> bool)
    requires DecodeFrame(bytes, json).Some?
    ensures Encoded(DecodeFrame(bytes, json).value) == bytes
  {
    var f := DecodeFrame(bytes, json).value;
    FromLE32RoundTrip(bytes[1..5]);
    assert bytes == [bytes[0]] + bytes[1..5] + bytes[5..5 + |f.header|] + bytes[5 + |f.header|..];
  }

  lemma {:induction false} FromLE32RoundTrip(b: Bytes)
    requires |b| == 4
    ensures FromLE32(b) < U32 && LE32(FromLE32(b)) == b
  {
    var w, x, y, z := b[0] as nat, b[1] as nat, b[2] as nat, b[3] as nat;
    var n := FromLE32(b);
    assert n % 256 == w && n / 256 == x + y * 256 + z * 65536;
    assert n / 65536 == y + z * 256 && n / 16777216 == z;
  }

  // ── bodies of many frames ─────────────────────────────────────────────────

  function Body(frames: seq<Bytes>): Bytes
    requires forall i :: 0 <= i < |frames| ==> |frames[i]| < U32
    decreases |frames|
  {
    if frames == [] then [] else LE32(|frames[0]|) + frames[0] + Body(frames[1..])
  }

  /** What the reader cuts a body into: up to the first length the rest cannot hold. */
  function Cut(body: Bytes): seq<Bytes>
    decreases |body|
  {
    if |body| < 4 then []
    else
      var len := FromLE32(body[..4]);
      if 4 + len > |body| then [] else [body[4..4 + len]] + Cut(body[4 + len..])
  }

  /** A body cut up is the frames it was made of. */
  lemma {:induction false} BodyRoundTrip(frames: seq<Bytes>)
    requires forall i :: 0 <= i < |frames| ==> |frames[i]| < U32
    ensures Cut(Body(frames)) == frames
    decreases |frames|
  {
    if frames != [] {
      var body, n := Body(frames), |frames[0]|;
      var head := LE32(n);
      LE32RoundTrip(n);
      hide LE32, FromLE32;
      assert body == head + frames[0] + Body(frames[1..]);
      assert body[..4] == head && body[4..4 + n] == frames[0] && body[4 + n..] == Body(frames[1..]);
      BodyRoundTrip(frames[1..]);
    }
  }

  /** What is left over is too short for a length, or announces more than there is. */
  ghost predicate NoFrame(rest: Bytes) {
    |rest| < 4 || 4 + rest[0] as nat + 0x100 * rest[1] as nat + 0x1_0000 * rest[2] as nat + 0x100_0000 * rest[3] as nat > |rest|
  }

  lemma {:induction false} CutHead(body: Bytes) returns (head: Bytes, tail: Bytes)
    requires |body| >= 4 && !NoFrame(body)
    ensures |head| < U32 && body == LE32(|head|) + head + tail && Cut(body) == [head] + Cut(tail)
  {
    var len := FromLE32(body[..4]);
    FromLE32RoundTrip(body[..4]);
    hide LE32;
    head, tail := body[4..4 + len], body[4 + len..];
    assert body == body[..4] + head + tail;
  }

  lemma {:induction false} BodyHead(head: Bytes, frames: seq<Bytes>)
    requires |head| < U32 && forall i :: 0 <= i < |frames| ==> |frames[i]| < U32
    ensures Body([head] + frames) == LE32(|head|) + head + Body(frames)
  {
    assert ([head] + frames)[1..] == frames;
  }

  /** The cut frames, with their lengths, are the body up to where no further frame fits. */
  lemma {:induction false} CutIsWhole(body: Bytes) returns (rest: Bytes)
    ensures forall i :: 0 <= i < |Cut(body)| ==> |Cut(body)[i]| < U32
    ensures body == Body(Cut(body)) + rest && NoFrame(rest)
    decreases |body|
  {
    if NoFrame(body) {
      rest := body;
      assert Body([]) == [] && [] + body == body && Cut(body) == [];
    } else {
      var head, tail := CutHead(body);
      rest := CutIsWhole(tail);
      BodyHead(head, Cut(tail));
      hide LE32, Cut, Body, NoFrame;
      Assoc(LE32(|head|) + head, Body(Cut(tail)), rest);
    }
  }

  function Total(frames: seq<Bytes>): nat
    decreases |frames|
  {
    if frames == [] then 0 else 4 + |frames[0]| + Total(frames[1..])
  }

  lemma {:induction false} TotalLast(frames: seq<Bytes>, last: Bytes)
    ensures Total(frames + [last]) == Total(frames) + 4 + |last|
    decreases |frames|
  {
    if frames == [] {
      assert [] + [last] == [last];
    } else {
      assert (frames + [last])[1..] == frames[1..] + [last];
      TotalLast(frames[1..], last);
    }
  }

  lemma {:induction false} BodySize(frames: seq<Bytes>)
    requires forall i :: 0 <= i < |frames| ==> |frames[i]| < U32
    ensures |Body(frames)| == Total(frames)
    decreases |frames|
  {
    if frames != [] {
      BodySize(frames[1..]);
    }
  }

  /** The room writes the frames into one buffer. */
  method SumSizes(frames: seq<Bytes>) returns (total: nat)
    ensures total == Total(frames)
  {
    total := 0;
    for i := 0 to |frames|
      invariant total + Total(frames[i..]) == Total(frames)
    {
      assert frames[i..][1..] == frames[i + 1..];
      total := total + 4 + |frames[i]|;
    }
    assert frames[|frames|..] == [];
  }

  method WriteBody(frames: seq<Bytes>) returns (body: array<uint8>)
    requires forall i :: 0 <= i < |frames| ==> |frames[i]| < U32
    ensures fresh(body) && body[..] == Body(frames)
  {
    var total := SumSizes(frames);
    BodySize(frames);
    assert frames[0..] == frames;
    hide LE32;
    body := new uint8[total];
    ghost var all := Body(frames);
    assert all[0..] == all && body[..0] == all[..0];
    hide Body, Total;
    var off: nat := 0;
    for i := 0 to |frames|
      invariant off <= total == body.Length == |all|
      invariant all[off..] == Body(frames[i..])
      invariant body[..off] == all[..off]
    {
      BodyStep(frames, i);
      var bytes := LE32(|frames[i]|) + frames[i];
      Advance(all, off, bytes, Body(frames[i + 1..]));
      PutBytes(body, off, bytes, all);
      off := off + |bytes|;
    }
    NoBody(all, off);
    assert body[..off] == body[..];
  }

  lemma {:induction false} Advance(all: Bytes, off: nat, bytes: Bytes, more: Bytes)
    requires off <= |all| && all[off..] == bytes + more
    ensures off + |bytes| <= |all| && bytes <= all[off..] && all[off + |bytes|..] == more
  {
    assert all[off..][|bytes|..] == all[off + |bytes|..];
  }

  lemma {:induction false} NoBody(all: Bytes, off: nat)
    requires off <= |all| && all[off..] == Body([])
    ensures off == |all| && all[..off] == all
  {
    assert |all[off..]| == 0;
  }

  lemma {:induction false} BodyStep(frames: seq<Bytes>, i: nat)
    requires i < |frames| && forall j :: 0 <= j < |frames| ==> |frames[j]| < U32
    ensures Body(frames[i..]) == LE32(|frames[i]|) + frames[i] + Body(frames[i + 1..])
  {
    assert frames[i..][1..] == frames[i + 1..];
  }

  method PutBytes(body: array<uint8>, off: nat, bytes: Bytes, ghost all: Bytes)
    requires off + |bytes| <= body.Length == |all| && body[..off] == all[..off] && bytes <= all[off..]
    modifies body
    ensures body[..off + |bytes|] == all[..off + |bytes|]
  {
    for i := 0 to |bytes|
      invariant body[..off + i] == all[..off + i]
    {
      assert all[off + i] == all[off..][i] == bytes[i];
      body[off + i] := bytes[i];
      assert body[..off + i + 1] == body[..off + i] + [bytes[i]];
      assert all[..off + i + 1] == all[..off + i] + [all[off + i]];
    }
  }

  /** The frames of a body, skipping those that do not decode. */
  function Decodable(cut: seq<Bytes>, json: Bytes -> bool): seq<Frame>
    decreases |cut|
  {
    if cut == [] then []
    else
      var f := DecodeFrame(cut[0], json);
      (if f.Some? then [f.value] else []) + Decodable(cut[1..], json)
  }

  /** What is read is each cut frame that decodes, whatever comes before or after it. */
  lemma {:induction false} DecodableEach(x: seq<Bytes>, bytes: Bytes, y: seq<Bytes>, json: Bytes -> bool)
    ensures var f := DecodeFrame(bytes, json);
      Decodable(x + [bytes] + y, json) == Decodable(x, json) + (if f.Some? then [f.value] else []) + Decodable(y, json)
    decreases |x|
  {
    var f := DecodeFrame(bytes, json);
    var one := if f.Some? then [f.value] else [];
    if x == [] {
      assert [] + [bytes] + y == [bytes] + y && ([bytes] + y)[1..] == y;
      assert [] + one + Decodable(y, json) == one + Decodable(y, json);
    } else {
      DecodableEach(x[1..], bytes, y, json);
      assert (x + [bytes] + y)[1..] == x[1..] + [bytes] + y;
      var head := DecodeFrame(x[0], json);
      hide DecodeFrame;
      assert Decodable(x, json) == (if head.Some? then [head.value] else []) + Decodable(x[1..], json);
    }
  }

  method ReadBody(body: Bytes, json: Bytes -> bool) returns (frames: seq<Frame>)
    ensures frames == Decodable(Cut(body), json)
  {
    frames := [];
    var off: nat := 0;
    ghost var all := Decodable(Cut(body), json);
    AllRemains(body, json);
    hide DecodeFrame, FromLE32, Cut, Decodable, Remaining;
    while off + 4 <= |body|
      invariant off <= |body| && frames + Remaining(body, off, json) == all
      decreases |body| - off
    {
      var got, next := NextFrame(body, off, json);
      ConcatEmpty(frames);
      if next == None {
        return;
      }
      Assoc(frames, got, Remaining(body, next.value, json));
      frames := frames + got;
      off := next.value;
    }
    CutEnd(body, off, json);
    ConcatEmpty(frames);
  }

  /** The frame at an offset, if it decodes, and where the next one starts, if the body is long
  enough for this one. */
  method NextFrame(body: Bytes, off: nat, json: Bytes -> bool) returns (got: seq<Frame>, next: Option<nat>)
    requires off + 4 <= |body|
    ensures next == None ==> Remaining(body, off, json) == []
    ensures next.Some? ==> off < next.value <= |body| && Remaining(body, off, json) == got + Remaining(body, next.value, json)
  {
    CutAt(body, off, json);
    hide DecodeFrame, FromLE32, Cut, Decodable, Remaining;
    var len := FromLE32(body[off..off + 4]);
    if off + 4 + len > |body| {
      return [], None;
    }
    var f := DecodeFrame(body[off + 4..off + 4 + len], json);
    return if f.Some? then [f.value] else [], Some(off + 4 + len);
  }

  lemma {:induction false} AllRemains(body: Bytes, json: Bytes -> bool)
    ensures Remaining(body, 0, json) == Decodable(Cut(body), json)
    ensures [] + Decodable(Cut(body), json) == Decodable(Cut(body), json)
  {
    assert body[0..] == body;
  }

  /** What is left to read from an offset on. */
  function Remaining(body: Bytes, off: nat, json: Bytes -> bool): seq<Frame>
    requires off <= |body|
  {
    Decodable(Cut(body[off..]), json)
  }

  lemma {:induction false} CutAt(body: Bytes, off: nat, json: Bytes -> bool)
    requires off + 4 <= |body|
    ensures var len := FromLE32(body[off..off + 4]);
      if off + 4 + len > |body| then Remaining(body, off, json) == []
      else
        var f := DecodeFrame(body[off + 4..off + 4 + len], json);
        Remaining(body, off, json) == (if f.Some? then [f.value] else []) + Remaining(body, off + 4 + len, json)
  {
    hide DecodeFrame, FromLE32, Cut, Decodable;
    Slices(body, off, 4);
    CutStep(body[off..], json);
    var len := FromLE32(body[off..off + 4]);
    if off + 4 + len <= |body| {
      Slices(body, off + 4, len);
    }
  }

  lemma {:induction false} CutEnd(body: Bytes, off: nat, json: Bytes -> bool)
    requires off <= |body| < off + 4
    ensures Remaining(body, off, json) == []
  {
  }

  lemma {:induction false} Slices(body: Bytes, off: nat, len: nat)
    requires off + len <= |body|
    ensures body[off..][..len] == body[off..off + len] && body[off..][len..] == body[off + len..]
    ensures off >= 4 ==> body[off - 4..][4..4 + len] == body[off..off + len] && body[off - 4..][4 + len..] == body[off + len..]
  {
  }

  /** What reading the first frame of a body leaves to read. */
  lemma {:induction false} CutStep(rest: Bytes, json: Bytes -> bool)
    requires |rest| >= 4
    ensures var len := FromLE32(rest[..4]);
      if 4 + len > |rest| then Decodable(Cut(rest), json) == []
      else
        var f := DecodeFrame(rest[4..4 + len], json);
        Decodable(Cut(rest), json) == (if f.Some? then [f.value] else []) + Decodable(Cut(rest[4 + len..]), json)
  {
    hide FromLE32, DecodeFrame;
    var len := FromLE32(rest[..4]);
    if 4 + len <= |rest| {
      DecodableStep(rest[4..4 + len], Cut(rest[4 + len..]), json);
    }
  }

  lemma {:induction false} DecodableStep(head: Bytes, tail: seq<Bytes>, json: Bytes -> bool)
    ensures var f := DecodeFrame(head, json);
      Decodable([head] + tail, json) == (if f.Some? then [f.value] else []) + Decodable(tail, json)
  {
    assert ([head] + tail)[1..] == tail;
  }

  predicate Sendable(f: Frame, json: Bytes -> bool) {
    KnownType(f.kind) && |f.header| <= MAX_HEADER_BYTES && json(f.header)
  }

  function EncodedAll(frames: seq<Frame>): (out: seq<Bytes>)
    requires forall i :: 0 <= i < |frames| ==> 5 + |frames[i].header| + |frames[i].payload| < U32
    ensures |out| == |frames| && forall i :: 0 <= i < |frames| ==> out[i] == Encoded(frames[i]) && |out[i]| < U32
  {
    seq(|frames|, i requires 0 <= i < |frames| => Encoded(frames[i]))
  }

  /** Frames written into a body are the frames read out of it. */
  lemma {:induction false} SentFramesArrive(frames: seq<Frame>, json: Bytes -> bool)
    requires forall i :: 0 <= i < |frames| ==> 5 + |frames[i].header| + |frames[i].payload| < U32
    requires forall i {:trigger frames[i]} :: 0 <= i < |frames| ==> Sendable(frames[i], json)
    ensures Decodable(Cut(Body(EncodedAll(frames))), json) == frames
  {
    BodyRoundTrip(EncodedAll(frames));
    AllDecode(frames, json);
  }

  lemma {:induction false} AllDecode(frames: seq<Frame>, json: Bytes -> bool)
    requires forall i :: 0 <= i < |frames| ==> 5 + |frames[i].header| + |frames[i].payload| < U32
    requires forall i {:trigger frames[i]} :: 0 <= i < |frames| ==> Sendable(frames[i], json)
    ensures Decodable(EncodedAll(frames), json) == frames
    decreases |frames|
  {
    if frames != [] {
      var all, rest := EncodedAll(frames), frames[1..];
      assert all == [Encoded(frames[0])] + EncodedAll(rest);
      FrameRoundTrip(frames[0], json);
      DecodableStep(Encoded(frames[0]), EncodedAll(rest), json);
      AllDecode(rest, json);
    }
  }
}
