/**
 Machine words as text and back: a word is byte-swapped and printed with eight hexadecimal digits, the text is read back
 two digits a byte, and the machine reads the bytes as little-endian words.
 */
module HexText {
  import opened Numbers

  type Byte = b: int | 0 <= b < 256

  const DIGITS: string := "0123456789ABCDEF"

  function HexByte(b: Byte): string { [DIGITS[b / 16], DIGITS[b % 16]] }

  function ByteOf(w: nat, k: nat): Byte {
    (if k == 0 then w else if k == 1 then w / 0x100 else if k == 2 then w / 0x1_0000 else w / 0x100_0000) % 0x100
  }

  function FromBytes(b0: Byte, b1: Byte, b2: Byte, b3: Byte): U32 { b0 + 0x100 * b1 + 0x1_0000 * b2 + 0x100_0000 * b3 }

  /** Reversing the bytes of a 32-bit word. */
  function ByteSwap(w: nat): U32 { FromBytes(ByteOf(w, 3), ByteOf(w, 2), ByteOf(w, 1), ByteOf(w, 0)) }

  /** Eight digits, the highest first. */
  function HexWord(w: nat): string {
    HexByte(ByteOf(w, 3)) + HexByte(ByteOf(w, 2)) + HexByte(ByteOf(w, 1)) + HexByte(ByteOf(w, 0))
  }

  /** The text of an instruction word: its bytes in the order that memory has them. */
  function WordText(w: nat): string {
    HexByte(ByteOf(w, 0)) + HexByte(ByteOf(w, 1)) + HexByte(ByteOf(w, 2)) + HexByte(ByteOf(w, 3))
  }

  lemma ByteBelow(b: Byte, rest: nat)
    ensures (b + 0x100 * rest) % 0x100 == b && (b + 0x100 * rest) / 0x100 == rest
  {}

  lemma Quotients(w: nat)
    ensures w / 0x1_0000 == w / 0x100 / 0x100 && w / 0x100_0000 == w / 0x100 / 0x100 / 0x100
  {}

  lemma BytesBack(b0: Byte, b1: Byte, b2: Byte, b3: Byte)
    ensures
      var w := FromBytes(b0, b1, b2, b3);
      ByteOf(w, 0) == b0 && ByteOf(w, 1) == b1 && ByteOf(w, 2) == b2 && ByteOf(w, 3) == b3
  {
    var x := b2 + 0x100 * b3;
    var y := b1 + 0x100 * x;
    var w := b0 + 0x100 * y;
    ByteBelow(b0, y);
    ByteBelow(b1, x);
    ByteBelow(b2, b3);
    Quotients(w);
  }

  lemma FromBytesOf(w: U32)
    ensures FromBytes(ByteOf(w, 0), ByteOf(w, 1), ByteOf(w, 2), ByteOf(w, 3)) == w
  {
    Quotients(w);
    var x := w / 0x100;
    var y := x / 0x100;
    var z := y / 0x100;
    Remainder(w);
    Remainder(x);
    Remainder(y);
    Remainder(z);
    TopByteSmall(w, x, y, z);
  }

  lemma Remainder(w: nat)
    ensures w == w % 0x100 + 0x100 * (w / 0x100) && 0 <= w % 0x100 < 0x100
  {}

  lemma TopByteSmall(w: U32, x: nat, y: nat, z: nat)
    requires x == w / 0x100 && y == x / 0x100 && z == y / 0x100
    ensures z % 0x100 == z
  {}

  /** Swapping and then printing the highest byte first prints the lowest byte first. */
  lemma SwapText(w: nat)
    ensures HexWord(ByteSwap(w)) == WordText(w)
  {
    BytesBack(ByteOf(w, 3), ByteOf(w, 2), ByteOf(w, 1), ByteOf(w, 0));
  }

  function Text(ws: seq<nat>): string
    decreases |ws|
  {
    if ws == [] then "" else WordText(ws[0]) + Text(ws[1..])
  }

  lemma {:induction false} TextAppend(a: seq<nat>, b: seq<nat>)
    ensures Text(a + b) == Text(a) + Text(b)
    decreases |a|
  {
    hide WordText;
    if a == [] {
      assert a + b == b;
    } else {
      assert (a + b)[0] == a[0] && (a + b)[1..] == a[1..] + b;
      TextAppend(a[1..], b);
    }
  }

  // Reading.

  /** The value of a digit, in either case. */
  function DigitValue(c: char): Option<nat> {
    if '0' <= c <= '9' then Some((c - '0') as nat)
    else if 'A' <= c <= 'F' then Some((c - 'A') as nat + 10)
    else if 'a' <= c <= 'f' then Some((c - 'a') as nat + 10)
    else None
  }

  predicate IsHex(s: string) { forall k :: 0 <= k < |s| ==> DigitValue(s[k]).Some? }

  /** The byte that two digits stand for. */
  function ByteAt(s: string, k: nat): (b: Byte)
    requires IsHex(s) && 2 * k + 1 < |s|
  {
    DigitRange(s[2 * k]);
    DigitRange(s[2 * k + 1]);
    16 * DigitValue(s[2 * k]).value + DigitValue(s[2 * k + 1]).value
  }

  lemma DigitRange(c: char)
    ensures DigitValue(c).Some? ==> DigitValue(c).value < 16
  {}

  lemma DigitBack(d: nat)
    requires d < 16
    ensures DigitValue(DIGITS[d]) == Some(d)
  {}

  function Bytes(s: string): (bs: seq<Byte>)
    requires IsHex(s)
    ensures |bs| == |s| / 2
  {
    seq(|s| / 2, k requires 0 <= k < |s| / 2 => ByteAt(s, k))
  }

  /** Filling the byte array, two digits a byte. */
  method ReadBytes(s: string) returns (a: array<Byte>)
    requires IsHex(s)
    ensures fresh(a) && a[..] == Bytes(s)
  {
    a := new Byte[|s| / 2](_ => 0);
    for i := 0 to a.Length
      invariant a.Length == |s| / 2 && forall k :: 0 <= k < i ==> a[k] == ByteAt(s, k)
    {
      a[i] := ByteAt(s, i);
    }
  }

  /** The little-endian word at byte `4 * k`. */
  function WordAt(bs: seq<Byte>, k: nat): U32
    requires 4 * k + 3 < |bs|
  {
    FromBytes(bs[4 * k], bs[4 * k + 1], bs[4 * k + 2], bs[4 * k + 3])
  }

  function Words(bs: seq<Byte>): (ws: seq<U32>)
    ensures |ws| == |bs| / 4
  {
    seq(|bs| / 4, k requires 0 <= k < |bs| / 4 => WordAt(bs, k))
  }

  lemma WordTextBytes(w: U32)
    ensures IsHex(WordText(w)) && Bytes(WordText(w)) == [ByteOf(w, 0), ByteOf(w, 1), ByteOf(w, 2), ByteOf(w, 3)]
  {
    hide ByteOf, HexByte, IsHex, Bytes;
    var a, b, c, d := HexByte(ByteOf(w, 0)), HexByte(ByteOf(w, 1)), HexByte(ByteOf(w, 2)), HexByte(ByteOf(w, 3));
    HexByteBack(ByteOf(w, 0));
    HexByteBack(ByteOf(w, 1));
    HexByteBack(ByteOf(w, 2));
    HexByteBack(ByteOf(w, 3));
    BytesAppend(a, b);
    BytesAppend(a + b, c);
    BytesAppend(a + b + c, d);
  }

  lemma HexByteBack(b: Byte)
    ensures |HexByte(b)| == 2 && IsHex(HexByte(b)) && Bytes(HexByte(b)) == [b]
  {
    DigitBack(b / 16);
    DigitBack(b % 16);
  }

  lemma BytesAppend(s: string, t: string)
    requires IsHex(s) && IsHex(t) && |s| % 2 == 0
    ensures IsHex(s + t) && Bytes(s + t) == Bytes(s) + Bytes(t)
  {
    hide DigitValue;
    var m := |s| / 2;
    forall k | 0 <= k < |s + t| / 2 ensures Bytes(s + t)[k] == (Bytes(s) + Bytes(t))[k] {
      if k < m {
        assert (s + t)[2 * k] == s[2 * k] && (s + t)[2 * k + 1] == s[2 * k + 1];
      } else {
        assert (s + t)[2 * k] == t[2 * (k - m)] && (s + t)[2 * k + 1] == t[2 * (k - m) + 1];
      }
    }
  }

  lemma WordsAppend(a: seq<Byte>, b: seq<Byte>)
    requires |a| == 4
    ensures Words(a + b) == [WordAt(a, 0)] + Words(b)
  {
    hide FromBytes;
    forall k | 0 <= k < |Words(a + b)| ensures Words(a + b)[k] == ([WordAt(a, 0)] + Words(b))[k] {
      if k > 0 {
        assert (a + b)[4 * k] == b[4 * (k - 1)] && (a + b)[4 * k + 1] == b[4 * (k - 1) + 1];
        assert (a + b)[4 * k + 2] == b[4 * (k - 1) + 2] && (a + b)[4 * k + 3] == b[4 * (k - 1) + 3];
      }
    }
  }

  /** For every list of words, the memory that their text is read into holds those words. */
  lemma {:induction false} TextBack(ws: seq<U32>)
    ensures IsHex(Text(ws)) && Words(Bytes(Text(ws))) == ws
    decreases |ws|
  {
    hide WordText, ByteOf, FromBytes, IsHex, Bytes, Words;
    if ws == [] {
      EmptyText();
    } else {
      var w, rest := ws[0], ws[1..];
      TextBack(rest);
      WordTextBytes(w);
      WordTextLength(w);
      BytesAppend(WordText(w), Text(rest));
      var a := [ByteOf(w, 0), ByteOf(w, 1), ByteOf(w, 2), ByteOf(w, 3)];
      WordsAppend(a, Bytes(Text(rest)));
      FromBytesOf(w);
      assert ws == [w] + rest;
    }
  }

  lemma EmptyText()
    ensures IsHex("") && Words(Bytes("")) == []
  {}

  lemma WordTextLength(w: nat)
    ensures |WordText(w)| == 8
  {}

  lemma WordTextHex(w: nat)
    ensures IsHex(WordText(w))
  {
    hide ByteOf, HexByte, IsHex, Bytes;
    var a, b, c, d := HexByte(ByteOf(w, 0)), HexByte(ByteOf(w, 1)), HexByte(ByteOf(w, 2)), HexByte(ByteOf(w, 3));
    HexByteBack(ByteOf(w, 0));
    HexByteBack(ByteOf(w, 1));
    HexByteBack(ByteOf(w, 2));
    HexByteBack(ByteOf(w, 3));
    BytesAppend(a, b);
    BytesAppend(a + b, c);
    BytesAppend(a + b + c, d);
  }

  lemma {:induction false} TextHex(ws: seq<nat>)
    ensures IsHex(Text(ws))
    decreases |ws|
  {
    hide WordText, DigitValue;
    if ws != [] {
      WordTextHex(ws[0]);
      TextHex(ws[1..]);
    }
  }
}
