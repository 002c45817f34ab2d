/** Unsigned LEB128 (section 5.2.2 of WebAssembly Core Specification 1.0) and the decoder of the program. */
module Leb {
  import opened Isa
  import opened Bits
  import opened Opcode
  import opened HexText

  /** The value of the groups up to the first byte without its high bit; bytes behind it do not matter. */
  function Value(bs: seq<Byte>): nat {
    if bs == [] then 0 else bs[0] % 0x80 + (if bs[0] < 0x80 then 0 else 0x80 * Value(bs[1..]))
  }

  /** The number of bytes up to that one. */
  function Groups(bs: seq<Byte>): nat { if bs == [] then 0 else if bs[0] < 0x80 then 1 else 1 + Groups(bs[1..]) }

  /** The shortest encoding. */
  function Encoded(v: nat): seq<Byte> { if v < 0x80 then [v] else [0x80 + v % 0x80] + Encoded(v / 0x80) }

  /** An encoding padded to `n` bytes. */
  function Padded(v: nat, n: nat): seq<Byte>
    decreases n
  {
    if n <= 1 then [v % 0x80] else [0x80 + v % 0x80] + Padded(v / 0x80, n - 1)
  }

  lemma PowStep(k: nat)
    ensures Pow2(k + 7) == 0x80 * Pow2(k)
    ensures Pow2(0) == 1
  {
    var p := Pow2(k);
    assert Pow2(k + 1) == 2 * p;
    assert Pow2(k + 2) == 4 * p;
    assert Pow2(k + 3) == 8 * p;
    assert Pow2(k + 4) == 0x10 * p;
    assert Pow2(k + 5) == 0x20 * p;
    assert Pow2(k + 6) == 0x40 * p;
  }

  lemma {:induction false} EncodedValue(v: nat, more: seq<Byte>)
    ensures Value(Encoded(v) + more) == v && Groups(Encoded(v) + more) == |Encoded(v)|
  {
    var bs := Encoded(v) + more;
    if v >= 0x80 {
      EncodedValue(v / 0x80, more);
      assert bs[1..] == Encoded(v / 0x80) + more;
    }
  }

  lemma {:induction false} PaddedValue(v: nat, n: nat, more: seq<Byte>)
    requires n > 0 && v < Pow2(7 * n)
    ensures Value(Padded(v, n) + more) == v && Groups(Padded(v, n) + more) == n
    decreases n
  {
    var bs := Padded(v, n) + more;
    if n > 1 {
      PowStep(7 * (n - 1));
      PaddedValue(v / 0x80, n - 1, more);
      assert bs[1..] == Padded(v / 0x80, n - 1) + more;
    } else {
      PowStep(0);
    }
  }

  lemma {:induction false} EncodedShort(v: nat, n: nat)
    requires n > 0 && v < Pow2(7 * n)
    ensures |Encoded(v)| <= n
    decreases n
  {
    if v >= 0x80 {
      if n > 1 {
        PowStep(7 * (n - 1));
        EncodedShort(v / 0x80, n - 1);
      } else {
        PowStep(0);
      }
    }
  }

  // The decoder.

  /** A 32-bit signed number widened to 64 bits. */
  function Widened(x: nat): nat { if x < 0x8000_0000 then x else x + 0xFFFF_FFFF_0000_0000 }

  /** The low 7 bits of a byte, shifted as a 32-bit signed number and then widened. */
  function Shifted(b: Byte, shift: nat): nat { Widened(Shl(b % 0x80, shift) % 0x1_0000_0000) }

  /** The groups of the first `i` bytes, each in its place. */
  function Prefix(bs: seq<Byte>, i: nat): nat
    requires i <= |bs|
  {
    if i == 0 then 0 else Prefix(bs, i - 1) + Shl(bs[i - 1] % 0x80, 7 * (i - 1))
  }

  ghost predicate Continued(bs: seq<Byte>, i: nat)
    requires i <= |bs|
  {
    forall k :: 0 <= k < i ==> bs[k] >= 0x80
  }

  lemma ShlStep(v: nat, k: nat)
    ensures Shl(v, k + 7) == Shl(0x80 * v, k)
  {
    ShlTimes(v, k + 7);
    ShlTimes(0x80 * v, k);
    PowStep(k);
    Reorder(v, Pow2(k));
  }

  lemma Reorder(v: nat, p: nat)
    ensures v * (0x80 * p) == 0x80 * v * p
  {}

  /** The value, split after the first `i` bytes. */
  lemma {:induction false} ValueSplit(bs: seq<Byte>, i: nat)
    requires i <= |bs| && Continued(bs, i)
    ensures Value(bs) == Prefix(bs, i) + Shl(Value(bs[i..]), 7 * i) && Groups(bs) == i + Groups(bs[i..])
  {
    hide Shl;
    if i == 0 {
      assert bs[0..] == bs;
      ShlIs(Value(bs));
    } else {
      var rest := bs[i..];
      ValueSplit(bs, i - 1);
      assert bs[i - 1..][0] == bs[i - 1] && bs[i - 1..][1..] == rest;
      ShlSum(bs[i - 1] % 0x80, 0x80 * Value(rest), 7 * (i - 1));
      ShlStep(Value(rest), 7 * (i - 1));
    }
  }

  lemma ShlIs(v: nat)
    ensures Shl(v, 0) == v
  {}

  lemma {:induction false} PrefixBelow(bs: seq<Byte>, i: nat)
    requires i <= |bs|
    ensures Prefix(bs, i) < Pow2(7 * i)
  {
    if i > 0 {
      PrefixBelow(bs, i - 1);
      var k, v := 7 * (i - 1), bs[i - 1] % 0x80;
      PowStep(k);
      ShlTimes(v, k);
      Times(v, Pow2(k));
    }
  }

  lemma Times(v: nat, p: nat)
    requires v < 0x80
    ensures p + v * p <= 0x80 * p
  {
    assert p + v * p == (v + 1) * p;
  }

  /** Nothing above a number's own bits. */
  lemma {:induction false} ClearAbove(w: nat, k: nat, b: nat)
    requires w < Pow2(k) && b >= k
    ensures BitAt(w, b) == 0
    decreases k
  {
    if k == 0 {
      HighZero(b);
    } else {
      ClearAbove(w / 2, k - 1, b - 1);
    }
  }

  /** OR-ing in a group at the end of the groups before it adds it. */
  lemma GroupAdds(w: nat, q: nat, k: nat)
    requires w < Pow2(k) && q < Pow2(36)
    ensures BitOr(w, Shl(q, k)) == w + Shl(q, k)
  {
    hide BitAt, Shl, BitOr, Pow2;
    forall b: nat | k <= b < k + 36 ensures BitAt(w, b) == 0 {
      ClearAbove(w, k, b);
    }
    OrAdds(w, q, 36, k);
  }

  lemma Pow2Large()
    ensures Pow2(28) == 0x1000_0000 && Pow2(35) == 0x8_0000_0000 && Pow2(36) == 0x10_0000_0000
  {
    PowStep(0);
    PowStep(7);
    PowStep(14);
    PowStep(21);
    PowStep(28);
    assert Pow2(36) == 2 * Pow2(35);
  }

  lemma LastGroup(x: nat)
    requires x < 0x80
    ensures
      var q := if x % 0x10 < 8 then x % 0x10 else x % 0x10 + 0xF_FFFF_FFF0;
      && q < 0x10_0000_0000 && Widened(x * 0x1000_0000 % 0x1_0000_0000) == q * 0x1000_0000
      && q * 0x1000_0000 + x / 0x10 * 0x1_0000_0000 ==
          x * 0x1000_0000 + (if x % 0x10 < 8 then 0 else 0xFFFF_FFFF) * 0x1_0000_0000
      && (x * 0x1000_0000 < 0x8000_0000 ==> x < 8)
  {
    var r, h := x % 0x10, x / 0x10;
    assert x * 0x1000_0000 == r * 0x1000_0000 + h * 0x1_0000_0000;
    assert x * 0x1000_0000 % 0x1_0000_0000 == r * 0x1000_0000;
  }

  lemma EarlyGroup(bs: seq<Byte>, i: nat)
    requires i < |bs| && i < 4
    ensures BitOr(Prefix(bs, i), Shifted(bs[i], 7 * i)) == Prefix(bs, i + 1)
  {
    hide BitOr, Pow2;
    var x: nat, k := bs[i] % 0x80, 7 * i;
    PrefixBelow(bs, i);
    Pow2Large();
    ShlTimes(x, k);
    PrefixBelow(bs, i + 1);
    PowsRise(7 * (i + 1), 28);
    GroupAdds(Prefix(bs, i), x, k);
  }

  lemma FifthGroup(bs: seq<Byte>) returns (c: nat, d: nat)
    requires |bs| > 4
    ensures BitOr(Prefix(bs, 4), Shifted(bs[4], 28)) + c * 0x1_0000_0000 == Prefix(bs, 5) + d * 0x1_0000_0000
    ensures Prefix(bs, 5) < 0x8000_0000 ==> c == d == 0
  {
    hide BitOr, Pow2;
    var x: nat := bs[4] % 0x80;
    PrefixBelow(bs, 4);
    Pow2Large();
    ShlTimes(x, 28);
    c, d := x / 0x10, if x % 0x10 < 8 then 0 else 0xFFFF_FFFF;
    var q: nat := if x % 0x10 < 8 then x % 0x10 else x % 0x10 + 0xF_FFFF_FFF0;
    ShlTimes(q, 28);
    LastGroup(x);
    GroupAdds(Prefix(bs, 4), q, 28);
  }

  /**
   What OR-ing in the group of byte `i` does: in the first four bytes it is added, in the fifth it is added up to a
   multiple of 2 to the 32.
   */
  lemma GroupStep(bs: seq<Byte>, i: nat) returns (c: nat, d: nat)
    requires i < |bs| && i < 5
    ensures BitOr(Prefix(bs, i), Shifted(bs[i], 7 * i)) + c * 0x1_0000_0000 == Prefix(bs, i + 1) + d * 0x1_0000_0000
    ensures i < 4 || Prefix(bs, i + 1) < 0x8000_0000 ==> c == d == 0
  {
    hide *;
    if i < 4 {
      EarlyGroup(bs, i);
      c, d := 0, 0;
    } else {
      c, d := FifthGroup(bs);
    }
  }

  lemma {:induction false} PowsRise(a: nat, b: nat)
    requires a <= b
    ensures Pow2(a) <= Pow2(b)
    decreases b - a
  {
    if a < b {
      PowsRise(a, b - 1);
    }
  }

  /** Multiples of 2 to the 32 do not matter for the low 32 bits or fewer. */
  lemma SameLow(a: nat, b: nat, c: nat, d: nat, bits: nat)
    requires a + c * 0x1_0000_0000 == b + d * 0x1_0000_0000 && bits <= 32
    ensures 0 < Pow2(bits) && a % Pow2(bits) == b % Pow2(bits)
  {
    OneBit(bits);
    var p, q := Pow2(bits), Pow2(32 - bits);
    PowSplit(bits, 32 - bits);
    Pow2Small();
    Cancel(a, c, p, q);
    Cancel(b, d, p, q);
  }

  lemma {:induction false} PowSplit(a: nat, b: nat)
    ensures Pow2(a + b) == Pow2(a) * Pow2(b)
    decreases b
  {
    if b > 0 {
      PowSplit(a, b - 1);
    }
  }

  lemma Cancel(a: nat, c: nat, p: nat, q: nat)
    requires p > 0
    ensures (a + c * (p * q)) % p == a % p
  {
    assert a + c * (p * q) == a % p + p * (a / p + c * q);
    Remains(a % p, a / p + c * q, p);
  }

  lemma Remains(r: nat, n: nat, p: nat)
    requires r < p
    ensures (r + p * n) % p == r
  {
    var m := r + p * n;
    var q, s := m / p, m % p;
    assert m == p * q + s;
    assert p * (n - q) == s - r && p * (q - n) == r - s;
    if n > q {
      AtLeast(p, n - q);
    } else if n < q {
      AtLeast(p, q - n);
    }
  }

  lemma AtLeast(p: nat, k: nat)
    requires k > 0
    ensures p * k >= p
  {}

  /**
   The decoder: with at most five bytes up to the last one, the value when 32 bits or fewer are asked for, and else when
   it is below 2 to the 31. The shifts of more bytes, or of 64 bits, are undefined.
   */
  method Decode(inputs: seq<Byte>, bits: nat) returns (r: nat)
    requires Groups(inputs) <= 5 && bits < 64
    ensures 0 < Pow2(bits)
    ensures bits <= 32 || Value(inputs) < 0x8000_0000 ==> r == Value(inputs) % Pow2(bits)
  {
    hide BitOr, Shl, Pow2, Shifted, Value, Groups, Prefix;
    OneBit(bits);
    var result: nat, shift: nat, i := 0, 0, 0;
    PrefixNone(inputs);
    ghost var c: nat, d: nat := 0, 0;
    while i < |inputs|
      invariant i <= |inputs| && shift == 7 * i && Continued(inputs, i) && i <= Groups(inputs)
      invariant i < 5 ==> result == Prefix(inputs, i) && c == d == 0
      invariant result + c * 0x1_0000_0000 == Prefix(inputs, i) + d * 0x1_0000_0000
      invariant Prefix(inputs, i) < 0x8000_0000 ==> c == d == 0
    {
      Last(inputs, i);
      c, d := GroupStep(inputs, i);
      result := BitOr(result, Shifted(inputs[i], shift));
      if inputs[i] < 0x80 {
        SameLowOr(result, Value(inputs), c, d, bits);
        return result % Pow2(bits);
      }
      shift := shift + 7;
      i := i + 1;
    }
    Behind(inputs);
    SameLowOr(result, Value(inputs), c, d, bits);
    return result % Pow2(bits);
  }

  /** What the byte after `i` continued ones is: one of the groups, and the last one when its high bit is clear. */
  lemma Last(bs: seq<Byte>, i: nat)
    requires i < |bs| && Continued(bs, i)
    ensures Groups(bs) > i && (bs[i] < 0x80 ==> Value(bs) == Prefix(bs, i + 1))
    ensures bs[i] >= 0x80 ==> Continued(bs, i + 1)
    ensures Prefix(bs, i) <= Prefix(bs, i + 1)
  {
    hide Shl;
    ValueSplit(bs, i);
  }

  lemma PrefixNone(bs: seq<Byte>)
    ensures Prefix(bs, 0) == 0
  {}

  lemma Behind(bs: seq<Byte>)
    requires Continued(bs, |bs|)
    ensures Value(bs) == Prefix(bs, |bs|)
  {
    ValueSplit(bs, |bs|);
    ShlZero(7 * |bs|);
  }

  lemma SameLowOr(a: nat, b: nat, c: nat, d: nat, bits: nat)
    requires a + c * 0x1_0000_0000 == b + d * 0x1_0000_0000 && (b < 0x8000_0000 ==> c == d == 0)
    ensures 0 < Pow2(bits) && (bits <= 32 || b < 0x8000_0000 ==> a % Pow2(bits) == b % Pow2(bits))
  {
    OneBit(bits);
    if bits <= 32 {
      SameLow(a, b, c, d, bits);
    }
  }

  /**
   For every value below 2 to the 32, its encodings of at most five bytes, padded or not, are read back, whatever
   follows.
   */
  lemma EncodingsBack(v: nat, n: nat, more: seq<Byte>)
    requires v < 0x1_0000_0000 && 0 < n <= 5 && v < Pow2(7 * n)
    ensures Groups(Padded(v, n) + more) <= 5 && Value(Padded(v, n) + more) == v
    ensures Groups(Encoded(v) + more) <= 5 && Value(Encoded(v) + more) == v
    ensures Pow2(32) == 0x1_0000_0000 && v % Pow2(32) == v
  {
    hide Pow2;
    PaddedValue(v, n, more);
    EncodedValue(v, more);
    EncodedShort(v, n);
    Pow2Small();
  }
}
