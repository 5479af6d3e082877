/** Bytes, and UTF-8 text as Rust strings hold it. */
module ByteSeq {
  newtype uint8 = x: int | 0 <= x < 256

  type Bytes = seq<uint8>

  predicate Continues(b: uint8) {
    0x80 <= b < 0xC0
  }

  /** Text made of characters of one to four bytes: a lead byte, then continuation bytes. */
  ghost predicate Utf8(text: Bytes)
    decreases |text|
  {
    text == [] || exists n: nat :: IsChar(text, n) && Utf8(text[n..])
  }

  predicate IsChar(text: Bytes, n: nat) {
    1 <= n <= 4 && n <= |text| && !Continues(text[0]) && forall i :: 1 <= i < n ==> Continues(text[i])
  }

  /** `is_char_boundary`. */
  predicate Boundary(text: Bytes, at: nat) {
    at <= |text| && (at == 0 || at == |text| || !Continues(text[at]))
  }

  /** No position is more than three bytes past a boundary. */
  lemma {:induction false} BoundaryNear(text: Bytes, at: nat) returns (b: nat)
    requires Utf8(text) && at <= |text|
    ensures b <= at < b + 4 && Boundary(text, b)
    decreases |text|
  {
    if at == 0 {
      b := 0;
    } else {
      var n: nat :| IsChar(text, n) && Utf8(text[n..]);
      if at < n {
        b := 0;
      } else {
        var c := BoundaryNear(text[n..], at - n);
        b := n + c;
        if 0 < c < |text[n..]| {
          assert text[b] == text[n..][c];
        } else if c == 0 && n < |text| {
          LeadFirst(text[n..]);
        }
      }
    }
  }

  lemma {:induction false} LeadFirst(text: Bytes)
    requires Utf8(text) && text != []
    ensures !Continues(text[0])
  {
  }

  /** Text cut at a boundary is text on both sides. */
  lemma {:induction false} CutUtf8(text: Bytes, at: nat)
    requires Utf8(text) && Boundary(text, at)
    ensures Utf8(text[..at]) && Utf8(text[at..])
    decreases |text|
  {
    if at == 0 {
      assert text[0..] == text && text[..0] == [];
    } else if at == |text| {
      assert text[..at] == text && text[at..] == [];
    } else {
      var n: nat :| IsChar(text, n) && Utf8(text[n..]);
      assert n <= at;
      assert at < |text| ==> text[n..][at - n] == text[at];
      CutUtf8(text[n..], at - n);
      assert text[n..][at - n..] == text[at..];
      assert text[..at][n..] == text[n..][..at - n];
      assert IsChar(text[..at], n);
    }
  }
}
