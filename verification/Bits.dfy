/** Unsigned words: shifts, bitwise OR, and words as lists of bit fields. */
module Bits {

  /** `y` shifted left by `k` bits. */
  function Shl(y: nat, k: nat): nat
    decreases k
  {
    if k == 0 then y else 2 * Shl(y, k - 1)
  }

  /** `w` shifted right by `k` bits. */
  function High(w: nat, k: nat): nat
    decreases w, k
  {
    if k == 0 then w else High(w / 2, k - 1)
  }

  /** The low `k` bits of `w`. */
  function Low(w: nat, k: nat): nat
    decreases w, k
  {
    if k == 0 then 0 else w % 2 + 2 * Low(w / 2, k - 1)
  }

  function Pow2(k: nat): nat { Shl(1, k) }

  /** Bitwise OR. */
  function BitOr(a: nat, b: nat): nat
    decreases a + b
  {
    if a == 0 && b == 0 then 0
    else (if a % 2 == 1 || b % 2 == 1 then 1 else 0) + 2 * BitOr(a / 2, b / 2)
  }

  // Laws of shifting.

  lemma HalfSum(x: nat, z: nat)
    ensures (x + 2 * z) / 2 == x / 2 + z && (x + 2 * z) % 2 == x % 2
  {}

  lemma {:induction false} LowHigh(x: nat, y: nat, k: nat)
    requires x < Pow2(k)
    ensures Low(x + Shl(y, k), k) == x && High(x + Shl(y, k), k) == y
    decreases k
  {
    if k > 0 {
      HalfSum(x, Shl(y, k - 1));
      LowHigh(x / 2, y, k - 1);
    }
  }

  lemma {:induction false} HighHigh(w: nat, j: nat, k: nat)
    ensures High(High(w, j), k) == High(w, j + k)
    decreases j
  {
    if j > 0 {
      HighHigh(w / 2, j - 1, k);
    }
  }

  lemma {:induction false} ShlShl(y: nat, j: nat, k: nat)
    ensures Shl(Shl(y, k), j) == Shl(y, j + k)
    decreases j
  {
    if j > 0 {
      ShlShl(y, j - 1, k);
    }
  }

  lemma {:induction false} ShlZero(k: nat)
    ensures Shl(0, k) == 0
    decreases k
  {
    if k > 0 {
      ShlZero(k - 1);
    }
  }

  // Laws of OR.

  lemma {:induction false} OrZero(a: nat)
    ensures BitOr(a, 0) == a && BitOr(0, a) == a
  {
    if a != 0 {
      OrZero(a / 2);
    }
  }

  lemma OrUnfold(a: nat, b: nat)
    ensures BitOr(a, b) == (if a % 2 == 1 || b % 2 == 1 then 1 else 0) + 2 * BitOr(a / 2, b / 2)
  {}

  lemma {:induction false} OneBit(k: nat)
    ensures 0 < Pow2(k)
    decreases k
  {
    if k > 0 {
      OneBit(k - 1);
    }
  }

  /** A word as its bit fields, from bit 0 upwards. */
  datatype Fields = End | Field(value: nat, length: nat, rest: Fields) {
    /** This word with one more field below it: diagrams are written from bit 31 downwards. */
    function F(value: nat, length: nat): Fields { Field(value, length, this) }
  }

  /** `f` has the `n` fields of `shape`, and every value fits its field. */
  ghost predicate Fills(f: Fields, shape: Fields, n: nat)
    decreases n
  {
    if n == 0 then f.End? && shape.End?
    else
      && f.Field? && shape.Field? && f.length == shape.length && f.value < Pow2(f.length)
      && Fills(f.rest, shape.rest, n - 1)
  }

  /** The word whose fields have the given values. */
  function Pack(f: Fields): nat {
    match f
    case End => 0
    case Field(v, k, rest) => v + Shl(Pack(rest), k)
  }

  /** `Pack` for a word of `n` fields. */
  function PackN(f: Fields, n: nat): nat
    decreases n
  {
    if n == 0 || f.End? then 0 else f.value + Shl(PackN(f.rest, n - 1), f.length)
  }

  /** The fields of a word, cut where the fields of `shape` are. */
  function Unpack(w: nat, shape: Fields): Fields
    decreases shape, w
  {
    match shape
    case End => End
    case Field(_, k, rest) => Field(Low(w, k), k, Unpack(High(w, k), rest))
  }

  /** The value of field `j`, 0 when there is none. */
  function At(f: Fields, j: nat): nat
    decreases j
  {
    if f.End? then 0 else if j == 0 then f.value else At(f.rest, j - 1)
  }

  /** The fields above field `j`, itself included. */
  function Drop(f: Fields, j: nat): Fields
    decreases j
  {
    if j == 0 || f.End? then f else Drop(f.rest, j - 1)
  }

  /** The number of the lowest bit of field `j`. */
  function Offset(f: Fields, j: nat): nat
    decreases j
  {
    if j == 0 || f.End? then 0 else f.length + Offset(f.rest, j - 1)
  }

  lemma UnpackStep(w: nat, shape: Fields, v: nat, y: nat)
    requires shape.Field? && v < Pow2(shape.length) && w == v + Shl(y, shape.length)
    ensures Unpack(w, shape) == Field(v, shape.length, Unpack(y, shape.rest))
  {
    LowHigh(v, y, shape.length);
  }

  /** Cutting a packed word where its fields are gives its fields. */
  lemma {:induction false} UnpackPack(f: Fields, shape: Fields, n: nat)
    requires Fills(f, shape, n)
    ensures Unpack(Pack(f), shape) == f
    decreases n
  {
    if n > 0 {
      UnpackStep(Pack(f), shape, f.value, Pack(f.rest));
      UnpackPack(f.rest, shape.rest, n - 1);
    }
  }

  lemma {:induction false} PackNPack(f: Fields, shape: Fields, n: nat)
    requires Fills(f, shape, n)
    ensures PackN(f, n) == Pack(f)
    decreases n
  {
    if n > 0 {
      PackNPack(f.rest, shape.rest, n - 1);
    }
  }

  /** Shifting a word right by whole fields drops those fields. */
  lemma {:induction false} PackHigh(f: Fields, shape: Fields, n: nat, j: nat)
    requires Fills(f, shape, n) && j <= n
    ensures High(Pack(f), Offset(f, j)) == PackN(Drop(f, j), n - j)
    decreases j
  {
    if j == 0 {
      PackNPack(f, shape, n);
    } else {
      LowHigh(f.value, Pack(f.rest), f.length);
      HighHigh(Pack(f), f.length, Offset(f.rest, j - 1));
      PackHigh(f.rest, shape.rest, n - 1, j - 1);
    }
  }
}
