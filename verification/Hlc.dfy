/** Hybrid logical clocks (crates/doc/src/registry.rs, edge/src/registry-core.ts).

A clock travels as the string `{ms:013}-{counter:06}-{device}` and both sides compare
clocks as strings. `Position` embeds all strings in [0, 1) so that string order becomes the
order of the reals; the other modules compare positions, which is the same comparison
(`PositionOrder`), and this module proves what the string format promises. */
module Hlc {

  /** A clock, as the position of its string in the lexicographic order. */
  type Clock = real

  predicate StrLess(a: string, b: string) {
    b != "" && (a == "" || a[0] < b[0] || (a[0] == b[0] && StrLess(a[1..], b[1..])))
  }

  function Position(s: string): (p: Clock)
    ensures 0.0 <= p < 1.0
    ensures s != "" ==> p > 0.0
  {
    if s == "" then 0.0
    else ((s[0] as int + 1) as real + Position(s[1..])) / 1114113.0
  }

  /** Positions compare exactly as strings do, and no two strings share one. */
  lemma {:induction false} PositionOrder(a: string, b: string)
    ensures StrLess(a, b) <==> Position(a) < Position(b)
    ensures a == b <==> Position(a) == Position(b)
  {
    if a != "" && b != "" {
      PositionOrder(a[1..], b[1..]);
      assert a == [a[0]] + a[1..] && b == [b[0]] + b[1..];
      var x, y := a[0] as int, b[0] as int;
      if x < y {
        assert (x + 1) as real + 1.0 <= (y + 1) as real;
      } else if y < x {
        assert (y + 1) as real + 1.0 <= (x + 1) as real;
      }
    }
  }

  /** `n` in decimal, zero-padded on the left to at least `width` digits. */
  function Pad(n: nat, width: nat): (s: string)
    ensures |s| >= width
    ensures forall i :: 0 <= i < |s| ==> '0' <= s[i] <= '9'
    decreases n + width
  {
    if n == 0 && width == 0 then ""
    else Pad(n / 10, if width == 0 then 0 else width - 1) + [('0' as int + n % 10) as char]
  }

  function EncodeHlc(ms: nat, counter: nat, device: string): string {
    Pad(ms, 13) + "-" + Pad(counter, 6) + "-" + device
  }

  function Pow10(w: nat): nat {
    if w == 0 then 1 else 10 * Pow10(w - 1)
  }

  lemma {:induction false} PadLength(n: nat, width: nat)
    requires n < Pow10(width)
    ensures |Pad(n, width)| == width
  {
    if width != 0 {
      PadLength(n / 10, width - 1);
    }
  }

  /** Comparing two strings that start with equally long parts compares those parts first. */
  lemma {:induction false} StrLessConcat(p: string, x: string, q: string, y: string)
    requires |p| == |q|
    ensures StrLess(p + x, q + y) <==> StrLess(p, q) || (p == q && StrLess(x, y))
  {
    if p == "" {
      assert p + x == x && q + y == y;
    } else {
      assert (p + x)[1..] == p[1..] + x && (q + y)[1..] == q[1..] + y;
      StrLessConcat(p[1..], x, q[1..], y);
      assert p == [p[0]] + p[1..] && q == [q[0]] + q[1..];
    }
  }

  lemma {:induction false} PadOrder(n: nat, m: nat, width: nat)
    requires n < Pow10(width) && m < Pow10(width)
    ensures StrLess(Pad(n, width), Pad(m, width)) <==> n < m
    ensures Pad(n, width) == Pad(m, width) <==> n == m
  {
    if width != 0 {
      PadOrder(n / 10, m / 10, width - 1);
      PadLength(n / 10, width - 1);
      PadLength(m / 10, width - 1);
      var p, q := Pad(n / 10, width - 1), Pad(m / 10, width - 1);
      var c, d := ('0' as int + n % 10) as char, ('0' as int + m % 10) as char;
      StrLessConcat(p, [c], q, [d]);
      assert (p + [c])[..width - 1] == p && (q + [d])[..width - 1] == q;
      assert (p + [c])[width - 1] == c && (q + [d])[width - 1] == d;
      assert StrLess([c], [d]) <==> c < d;
    }
  }

  predicate ClockBefore(ms: nat, counter: nat, device: string, ms': nat, counter': nat, device': string) {
    ms < ms' || (ms == ms' && (counter < counter' || (counter == counter' && StrLess(device, device'))))
  }

  /** A padded number before a dash decides first, whatever follows the dash. */
  lemma {:induction false} PaddedOrder(n: nat, x: string, m: nat, y: string, width: nat)
    requires n < Pow10(width) && m < Pow10(width)
    ensures StrLess(Pad(n, width) + "-" + x, Pad(m, width) + "-" + y) <==> n < m || (n == m && StrLess(x, y))
  {
    PadOrder(n, m, width);
    PadLength(n, width);
    PadLength(m, width);
    var p, q := Pad(n, width), Pad(m, width);
    StrLessConcat("-", x, "-", y);
    StrLessConcat(p, "-" + x, q, "-" + y);
    assert p + "-" + x == p + ("-" + x) && q + "-" + y == q + ("-" + y);
  }

  /** The string order of encoded clocks is (ms, counter, device) order. */
  lemma {:induction false} EncodeOrder(ms: nat, counter: nat, device: string, ms': nat, counter': nat, device': string)
    requires ms < 10_000_000_000_000 && ms' < 10_000_000_000_000
    requires counter <= 999_999 && counter' <= 999_999
    ensures StrLess(EncodeHlc(ms, counter, device), EncodeHlc(ms', counter', device'))
       <==> ClockBefore(ms, counter, device, ms', counter', device')
    ensures Position(EncodeHlc(ms, counter, device)) < Position(EncodeHlc(ms', counter', device'))
       <==> ClockBefore(ms, counter, device, ms', counter', device')
  {
    var a, a' := EncodeHlc(ms, counter, device), EncodeHlc(ms', counter', device');
    var x, x' := Pad(counter, 6) + "-" + device, Pad(counter', 6) + "-" + device';
    assert StrLess(x, x') <==> counter < counter' || (counter == counter' && StrLess(device, device')) by {
      PowersOfTen();
      PaddedOrder(counter, device, counter', device', 6);
    }
    assert StrLess(a, a') <==> ms < ms' || (ms == ms' && StrLess(x, x')) by {
      PowersOfTen();
      EncodeParts(ms, counter, device);
      EncodeParts(ms', counter', device');
      PaddedOrder(ms, x, ms', x', 13);
    }
    PositionOrder(a, a');
  }

  lemma {:induction false} EncodeParts(ms: nat, counter: nat, device: string)
    ensures EncodeHlc(ms, counter, device) == Pad(ms, 13) + "-" + (Pad(counter, 6) + "-" + device)
  {
    var m, c := Pad(ms, 13), Pad(counter, 6);
    assert m + "-" + c + "-" + device == m + "-" + (c + "-" + device);
  }

  lemma {:induction false} PowersOfTen()
    ensures Pow10(6) == 1_000_000 && Pow10(13) == 10_000_000_000_000
  {
    assert Pow10(3) == 1000;
    assert Pow10(6) == 1_000_000;
    assert Pow10(9) == 1_000_000_000;
    assert Pow10(12) == 1_000_000_000_000;
  }

  lemma {:induction false} PadInjective(n: nat, m: nat, width: nat)
    requires Pad(n, width) == Pad(m, width)
    ensures n == m
    decreases n + m + width
  {
    if n + width != 0 && m + width != 0 {
      var w := if width == 0 then 0 else width - 1;
      var s := Pad(n, width);
      assert Pad(n / 10, w) == s[..|s| - 1] == Pad(m / 10, w);
      PadInjective(n / 10, m / 10, w);
      assert s[|s| - 1] as int == '0' as int + n % 10 == '0' as int + m % 10;
    }
  }

  lemma {:induction false} FirstDash(p: string, x: string, q: string, y: string)
    requires p + "-" + x == q + "-" + y
    requires forall i :: 0 <= i < |p| ==> p[i] != '-'
    requires forall i :: 0 <= i < |q| ==> q[i] != '-'
    ensures p == q && x == y
  {
    var s := p + "-" + x;
    assert s[|p|] == '-' && s[|q|] == '-';
    assert forall i :: 0 <= i < |p| ==> s[i] == p[i];
    assert forall i :: 0 <= i < |q| ==> s[i] == q[i];
    assert |p| == |q|;
    assert p == s[..|p|] == q;
    assert x == s[|p| + 1..] == y;
  }

  /** Two clocks of any magnitude encode alike only when they are the same clock. */
  lemma {:induction false} EncodeInjective(ms: nat, counter: nat, device: string, ms': nat, counter': nat, device': string)
    requires EncodeHlc(ms, counter, device) == EncodeHlc(ms', counter', device')
    ensures ms == ms' && counter == counter' && device == device'
  {
    var x, x' := Pad(counter, 6) + "-" + device, Pad(counter', 6) + "-" + device';
    EncodeParts(ms, counter, device);
    EncodeParts(ms', counter', device');
    FirstDash(Pad(ms, 13), x, Pad(ms', 13), x');
    PadInjective(ms, ms', 13);
    FirstDash(Pad(counter, 6), device, Pad(counter', 6), device');
    PadInjective(counter, counter', 6);
  }

  /** The number these digits spell. */
  function Spelled(digits: string): nat
    requires forall i :: 0 <= i < |digits| ==> '0' <= digits[i] <= '9'
    decreases |digits|
  {
    if digits == "" then 0 else 10 * Spelled(digits[..|digits| - 1]) + (digits[|digits| - 1] as int - '0' as int)
  }

  lemma {:induction false} PadSpells(n: nat, width: nat)
    ensures Spelled(Pad(n, width)) == n
    decreases n + width
  {
    if n != 0 || width != 0 {
      var w := if width == 0 then 0 else width - 1;
      PadSpells(n / 10, w);
      var front, last := Pad(n / 10, w), [('0' as int + n % 10) as char];
      assert Pad(n, width) == front + last && (front + last)[..|front|] == front;
    }
  }

  /** Thirteen digits of milliseconds, six of the counter, and the device, parted by dashes. */
  lemma {:induction false} EncodeShape(ms: nat, counter: nat, device: string)
    requires ms < 10_000_000_000_000 && counter < 1_000_000
    ensures var h := EncodeHlc(ms, counter, device);
      && |h| == 21 + |device| && h[13] == h[20] == '-' && h[21..] == device
      && (forall i :: 0 <= i < 20 && i != 13 ==> '0' <= h[i] <= '9')
      && Spelled(h[..13]) == ms && Spelled(h[14..20]) == counter
  {
    PowersOfTen();
    PadLength(ms, 13);
    PadLength(counter, 6);
    PadSpells(ms, 13);
    PadSpells(counter, 6);
    var h, x, y := EncodeHlc(ms, counter, device), Pad(ms, 13), Pad(counter, 6);
    hide Pad, EncodeHlc;
    assert h == x + "-" + y + "-" + device by {
      EncodeIs(ms, counter, device);
    }
    assert h[..13] == x && h[14..20] == y && h[21..] == device;
  }

  lemma {:induction false} EncodeIs(ms: nat, counter: nat, device: string)
    ensures EncodeHlc(ms, counter, device) == Pad(ms, 13) + "-" + Pad(counter, 6) + "-" + device
  {
  }

  /** The monotonic clock source kept with a registry replica. */
  class HlcClock {
    var lastMs: nat
    var counter: nat

    predicate Valid()
      reads this
    {
      counter <= 999_999
    }

    constructor ()
      ensures Valid() && lastMs == 0 && counter == 0
    {
      lastMs, counter := 0, 0;
    }

    /** Whatever the wall clock reads, the emitted pair is newer than every earlier one. */
    method Next(nowMs: int, device: string) returns (h: string)
      requires Valid()
      modifies this
      ensures Valid() && h == EncodeHlc(lastMs, counter, device)
      ensures old(lastMs) < lastMs || (old(lastMs) == lastMs && old(counter) < counter)
      ensures nowMs > old(lastMs) ==> lastMs == nowMs && counter == 0
      ensures nowMs <= old(lastMs) && old(counter) < 999_999 ==> lastMs == old(lastMs) && counter == old(counter) + 1
      ensures nowMs <= old(lastMs) && old(counter) == 999_999 ==> lastMs == old(lastMs) + 1 && counter == 0
    {
      if nowMs > lastMs {
        lastMs := nowMs;
        counter := 0;
      } else {
        counter := counter + 1;
        if counter > 999_999 {
          lastMs := lastMs + 1;
          counter := 0;
        }
      }
      h := EncodeHlc(lastMs, counter, device);
    }
  }
}
