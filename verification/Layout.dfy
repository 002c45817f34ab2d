/** The frame of a function: where include/Wasm/Stack.hpp and include/Wasm/Initialize.hpp put its variables. */
module Layout {
  import opened Codegen
  import opened Machine
  import W = Wasm

  /** A function: the widths of its parameters, locals and results, and its body. */
  datatype Fn = Fn(params: seq<bool>, locals: seq<bool>, results: seq<bool>, body: W.Code)

  /** Every variable takes 4 bytes of the offsets, whatever its width. */
  function ParamEnd(n: nat): nat { 4 * n }

  function LocalEnd(n: nat, m: nat): nat { ParamEnd(n) + 8 + 4 * m }

  /** Rounding up to a multiple of 16. */
  function RoundUp(end: nat): nat { if end % 16 != 0 then 16 * (end / 16 + 1) else end }

  function FrameSize(n: nat, m: nat): nat { RoundUp(LocalEnd(n, m)) }

  function Widths(fn: Fn): seq<bool> { fn.params + fn.locals }

  /** The offset of variable `i` of `n` parameters and `m` locals; both groups run downwards. */
  function OffsetOf(n: nat, m: nat, i: nat): nat
    requires i < n + m
  {
    if i < n then ParamEnd(n) - 4 * i else LocalEnd(n, m) - 4 * (i - n)
  }

  function Slots(fn: Fn): (slots: seq<Slot>)
    ensures |slots| == |fn.params| + |fn.locals|
  {
    var n, m := |fn.params|, |fn.locals|;
    seq(n + m, i requires 0 <= i < n + m => Slot(Widths(fn)[i], OffsetOf(n, m, i)))
  }

  function Frame(fn: Fn): nat { FrameSize(|fn.params|, |fn.locals|) }

  /** The offset that a scaled access to the slot really has. */
  function Effective(slot: Slot): nat { if slot.wide then slot.off / 8 * 8 else slot.off / 4 * 4 }

  predicate Apart(a: int, n: int, b: int, m: int) { a + n <= b || b + m <= a }

  ghost predicate SlotsApart(slots: seq<Slot>) {
    forall i, j :: 0 <= i < j < |slots| ==>
      Apart(Effective(slots[i]), Size(slots[i].wide), Effective(slots[j]), Size(slots[j].wide))
  }

  // Which variables overlap. In units of 4 bytes, a variable owns one cell and an i64 takes that cell and its partner.

  function Partner(off: nat): int { if off % 8 == 0 then off + 4 else off - 4 }

  /** Every i64's partner cell belongs to no variable. */
  ghost predicate Roomy(slots: seq<Slot>) {
    forall i, j :: 0 <= i < |slots| && 0 <= j < |slots| && slots[i].wide ==> slots[j].off != Partner(slots[i].off)
  }

  lemma OffsetsDiffer(n: nat, m: nat, i: nat, j: nat)
    requires i < j < n + m
    ensures OffsetOf(n, m, i) != OffsetOf(n, m, j) && OffsetOf(n, m, i) % 4 == 0 && OffsetOf(n, m, j) % 4 == 0
  {}

  lemma PairApart(a: Slot, b: Slot)
    requires a.off % 4 == 0 && b.off % 4 == 0 && a.off != b.off
    ensures Apart(Effective(a), Size(a.wide), Effective(b), Size(b.wide)) <==>
            (a.wide ==> b.off != Partner(a.off)) && (b.wide ==> a.off != Partner(b.off))
  {
    hide Effective, Partner;
    var c, d := EffectiveAt(a.off, a.wide);
    var f, g := EffectiveAt(b.off, b.wide);
    PartnerAt(a.off, c, d);
    PartnerAt(b.off, f, g);
    assert a == Slot(a.wide, a.off) && b == Slot(b.wide, b.off);
  }

  lemma PartnerAt(off: nat, c: nat, d: nat)
    requires off == 4 * (2 * c + d) && d < 2
    ensures Partner(off) == 4 * (2 * c + 1 - d)
  {
    Eighths(off, c, 4 * d);
  }

  lemma OwnPartner(off: nat)
    ensures Partner(off) != off
  {}

  /** Slots are disjoint exactly when no i64 has a neighbour in its partner cell. */
  lemma DisjointSlots(fn: Fn)
    ensures SlotsApart(Slots(fn)) <==> Roomy(Slots(fn))
  {
    var n, m, s := |fn.params|, |fn.locals|, Slots(fn);
    forall i, j | 0 <= i < j < |s|
      ensures Apart(Effective(s[i]), Size(s[i].wide), Effective(s[j]), Size(s[j].wide)) <==>
              (s[i].wide ==> s[j].off != Partner(s[i].off)) && (s[j].wide ==> s[i].off != Partner(s[j].off))
    {
      OffsetsDiffer(n, m, i, j);
      PairApart(s[i], s[j]);
    }
    forall i | 0 <= i < |s| ensures s[i].off != Partner(s[i].off) {
      OwnPartner(s[i].off);
    }
    if Roomy(s) {
      assert SlotsApart(s);
    }
    if SlotsApart(s) {
      forall i, j | 0 <= i < |s| && 0 <= j < |s| && s[i].wide ensures s[j].off != Partner(s[i].off) {
        if i < j {
          assert Apart(Effective(s[i]), Size(s[i].wide), Effective(s[j]), Size(s[j].wide));
        } else if j < i {
          assert Apart(Effective(s[j]), Size(s[j].wide), Effective(s[i]), Size(s[i].wide));
        }
      }
    }
  }

  lemma NarrowSlot(fn: Fn, i: nat)
    requires i < |Slots(fn)| && forall w | w in Widths(fn) :: !w
    ensures !Slots(fn)[i].wide && Slots(fn)[i].off % 4 == 0 && Effective(Slots(fn)[i]) == Slots(fn)[i].off
  {
    assert Slots(fn)[i].wide == Widths(fn)[i] && Widths(fn)[i] in Widths(fn);
  }

  /** A frame of i32 variables: slots are disjoint, aligned, and addressed exactly at their offsets. */
  lemma NarrowFrame(fn: Fn)
    requires forall w | w in Widths(fn) :: !w
    ensures SlotsApart(Slots(fn))
    ensures forall i :: 0 <= i < |Slots(fn)| ==>
        Slots(fn)[i].off % 4 == 0 && Effective(Slots(fn)[i]) == Slots(fn)[i].off
  {
    hide SlotsApart, Effective, Slots, Widths;
    DisjointSlots(fn);
    forall i | 0 <= i < |Slots(fn)|
      ensures !Slots(fn)[i].wide && Slots(fn)[i].off % 4 == 0 && Effective(Slots(fn)[i]) == Slots(fn)[i].off
    {
      NarrowSlot(fn, i);
    }
  }

  // The frame in plain numbers.

  /** Rounding up in units of 4 bytes. */
  lemma RoundUpAt(end: nat) returns (q: nat, r: nat)
    requires end % 4 == 0
    ensures end == 4 * (4 * q + r) && r < 4 && RoundUp(end) == 4 * (if r == 0 then 4 * q else 4 * q + 4)
  {
    var k := end / 4;
    q, r := k / 4, k % 4;
    assert end == 4 * k && k == 4 * q + r;
    Sixteenths(end, q, 4 * r);
  }

  lemma Sixteenths(x: nat, q: nat, r: nat)
    requires x == 16 * q + r && r < 16
    ensures x / 16 == q && x % 16 == r
  {}

  lemma RoundLeast(end: nat, k: nat)
    requires end % 4 == 0 && k % 16 == 0 && k >= end
    ensures RoundUp(end) <= k
  {
    hide RoundUp;
    var q, r := RoundUpAt(end);
    var j := k / 16;
    assert k == 16 * j;
  }

  lemma RoundHolds(end: nat)
    requires end % 4 == 0
    ensures RoundUp(end) % 16 == 0 && end <= RoundUp(end) < end + 16
  {
    hide RoundUp;
    var q, r := RoundUpAt(end);
    assert RoundUp(end) == 16 * (if r == 0 then q else q + 1);
  }

  /** The frame is the least multiple of 16 that holds 4 bytes a variable and 8 between parameters and locals. */
  lemma FrameLeast(n: nat, m: nat)
    ensures FrameSize(n, m) % 16 == 0 && 4 * n + 8 + 4 * m <= FrameSize(n, m) < 4 * n + 8 + 4 * m + 16
    ensures forall k: nat :: k % 16 == 0 && k >= 4 * n + 8 + 4 * m ==> FrameSize(n, m) <= k
  {
    hide RoundUp;
    var end := 4 * (n + 2 + m);
    assert end == LocalEnd(n, m);
    RoundHolds(end);
    forall k: nat | k % 16 == 0 && k >= end ensures RoundUp(end) <= k {
      RoundLeast(end, k);
    }
  }

  /** Parameter `i` of `n` is at `4 * (n - i)`, local `j` of `m` at `4 * n + 8 + 4 * (m - j)`. */
  lemma SlotPlaces(fn: Fn)
    ensures
      var n, m := |fn.params|, |fn.locals|;
      && |Slots(fn)| == n + m
      && (forall i :: 0 <= i < n ==> Slots(fn)[i] == Slot(fn.params[i], 4 * (n - i)))
      && forall j :: 0 <= j < m ==> Slots(fn)[n + j] == Slot(fn.locals[j], 4 * n + 8 + 4 * (m - j))
  {}

  /** The cell of variable `i`, counted in units of 4 bytes. */
  function Unit(n: nat, m: nat, i: nat): nat
    requires i < n + m
  {
    if i < n then n - i else n + 2 + (m - (i - n))
  }

  lemma EvenPartner(off: nat, k: nat)
    requires off == 8 * k
    ensures Partner(off) == off + 4
  {}

  lemma OddPartner(off: nat, k: nat)
    requires off == 8 * k + 4
    ensures Partner(off) == off - 4
  {}

  /**
   A frame of i64 variables: the slots are disjoint exactly for at most two parameters and at most one local, or two
   locals behind an even number of parameters.
   */
  lemma WideFrame(fn: Fn)
    requires forall w | w in Widths(fn) :: w
    ensures
      var n, m := |fn.params|, |fn.locals|;
      SlotsApart(Slots(fn)) <==> n <= 2 && (m <= 1 || (m == 2 && n % 2 == 0))
  {
    hide SlotsApart, Partner, Slots, Widths;
    var n, m, s := |fn.params|, |fn.locals|, Slots(fn);
    AllWide(fn);
    DisjointSlots(fn);
    if n >= 3 {
      Neighbours(fn, n - 2, n - 3, 1);
    } else if m >= 2 && n % 2 == 1 {
      Neighbours(fn, n + m - 1, n + m - 2, (n + 3) / 2);
    } else if m >= 3 {
      Neighbours(fn, n + m - 2, n + m - 3, (n + 4) / 2);
    } else {
      forall i, j | 0 <= i < |s| && 0 <= j < |s| ensures s[j].off != Partner(s[i].off) {
        PlaceOf(fn, i);
        PlaceOf(fn, j);
        WideRoom(n, m, Unit(n, m, i), Unit(n, m, j));
      }
    }
  }

  lemma PlaceOf(fn: Fn, i: nat)
    requires i < |Slots(fn)|
    ensures Slots(fn)[i].off == 4 * Unit(|fn.params|, |fn.locals|, i)
  {}

  /** Variable `j` is in the partner cell of variable `i`. */
  lemma Neighbours(fn: Fn, i: nat, j: nat, k: nat)
    requires i < |Slots(fn)| && j < |Slots(fn)| && Unit(|fn.params|, |fn.locals|, i) == 2 * k
    requires Unit(|fn.params|, |fn.locals|, j) == 2 * k + 1
    ensures Slots(fn)[j].off == Partner(Slots(fn)[i].off)
  {
    hide Slots, Partner;
    PlaceOf(fn, i);
    PlaceOf(fn, j);
    EvenPartner(Slots(fn)[i].off, k);
  }

  lemma AllWide(fn: Fn)
    requires forall w | w in Widths(fn) :: w
    ensures forall i :: 0 <= i < |Slots(fn)| ==> Slots(fn)[i].wide
  {
    forall i | 0 <= i < |Slots(fn)| ensures Slots(fn)[i].wide {
      assert Slots(fn)[i].wide == Widths(fn)[i] && Widths(fn)[i] in Widths(fn);
    }
  }

  lemma WideRoom(n: nat, m: nat, u: nat, v: nat)
    requires n <= 2 && (m <= 1 || (m == 2 && n % 2 == 0))
    requires (1 <= u <= n || n + 3 <= u <= n + 2 + m) && (1 <= v <= n || n + 3 <= v <= n + 2 + m)
    ensures 4 * v != Partner(4 * u)
  {
    hide Partner;
    if u % 2 == 0 {
      EvenPartner(4 * u, u / 2);
    } else {
      OddPartner(4 * u, u / 2);
    }
  }

  /** Two i64 parameters fit; with three or more, two always overlap. */
  lemma WideParams(fn: Fn)
    requires fn.locals == [] && (forall w | w in fn.params :: w)
    ensures SlotsApart(Slots(fn)) <==> |fn.params| <= 2
  {
    hide SlotsApart, Slots;
    assert Widths(fn) == fn.params;
    WideFrame(fn);
  }

  // Which variables leave the frame.

  predicate Inside(fn: Fn, i: nat)
    requires i < |Slots(fn)|
  {
    var s := Slots(fn)[i];
    Effective(s) + Size(s.wide) <= Frame(fn)
  }

  /** The frame ends exactly at `local_stack_end_location` and there is a local to put there. */
  predicate Spills(fn: Fn) { |fn.locals| > 0 && LocalEnd(|fn.params|, |fn.locals|) % 16 == 0 }

  lemma BelowEnd(end: nat, off: nat, wide: bool)
    requires end % 4 == 0 && off % 4 == 0 && off <= end && (off < end || end % 16 != 0)
    ensures Effective(Slot(wide, off)) + Size(wide) <= RoundUp(end)
  {
    hide RoundUp, Effective;
    var q, r := RoundUpAt(end);
    var c, d := EffectiveAt(off, wide);
    Room(c, d, q, r);
  }

  lemma Eighths(x: nat, q: nat, r: nat)
    requires x == 8 * q + r && r < 8
    ensures x / 8 == q && x % 8 == r
  {}

  lemma EffectiveAt(off: nat, wide: bool) returns (c: nat, d: nat)
    requires off % 4 == 0
    ensures off == 4 * (2 * c + d) && d < 2 && Effective(Slot(wide, off)) == 4 * (if wide then 2 * c else 2 * c + d)
  {
    var k := off / 4;
    c, d := k / 2, k % 2;
    assert off == 4 * k && k == 2 * c + d;
    Eighths(off, c, 4 * d);
  }

  lemma Room(c: nat, d: nat, q: nat, r: nat)
    requires d < 2 && r < 4 && 2 * c + d <= 4 * q + r && (2 * c + d < 4 * q + r || r != 0)
    ensures 2 * c + 2 <= if r == 0 then 4 * q else 4 * q + 4
    ensures 2 * c + d + 1 <= if r == 0 then 4 * q else 4 * q + 4
  {
    if r == 0 {
      assert c < 2 * q;
    } else {
      assert c < 2 * q + 2;
    }
  }

  lemma AtEnd(end: nat, wide: bool)
    requires end % 16 == 0
    ensures Effective(Slot(wide, end)) == end == RoundUp(end)
  {}

  lemma SlotInside(n: nat, m: nat, i: nat, wide: bool)
    requires i < n + m
    ensures
      var s := Slot(wide, OffsetOf(n, m, i));
      && (i == n && LocalEnd(n, m) % 16 == 0 ==> Effective(s) == FrameSize(n, m))
      && (!(i == n && LocalEnd(n, m) % 16 == 0) ==> Effective(s) + Size(wide) <= FrameSize(n, m))
  {
    hide Effective, RoundUp;
    var end, off := LocalEnd(n, m), OffsetOf(n, m, i);
    if i == n && end % 16 == 0 {
      AtEnd(end, wide);
    } else {
      BelowEnd(end, off, wide);
    }
  }

  /** The frame is 16-aligned, and a slot leaves it just when it is local 0's and the locals end on a multiple of 16. */
  lemma FrameHoldsSlots(fn: Fn)
    ensures Frame(fn) % 16 == 0 && Frame(fn) >= LocalEnd(|fn.params|, |fn.locals|)
    ensures forall i :: 0 <= i < |Slots(fn)| ==> (Inside(fn, i) <==> !(Spills(fn) && i == |fn.params|))
    ensures Spills(fn) ==> Effective(Slots(fn)[|fn.params|]) == Frame(fn)
  {
    var n, m := |fn.params|, |fn.locals|;
    forall i | 0 <= i < |Slots(fn)| ensures Inside(fn, i) <==> !(Spills(fn) && i == n) {
      SlotInside(n, m, i, Widths(fn)[i]);
    }
    if Spills(fn) {
      SlotInside(n, m, n, Widths(fn)[n]);
    }
  }

  /** The bytes above sp that the slots reach: the frame, and 8 bytes of the caller's when local 0 spills. */
  function Extent(fn: Fn): nat { Frame(fn) + (if Spills(fn) then 8 else 0) }

  lemma ExtentHoldsSlots(fn: Fn, i: nat)
    requires i < |Slots(fn)|
    ensures Effective(Slots(fn)[i]) + Size(Slots(fn)[i].wide) <= Extent(fn)
  {
    FrameHoldsSlots(fn);
    assert Inside(fn, i) <==> !(Spills(fn) && i == |fn.params|);
  }
}
