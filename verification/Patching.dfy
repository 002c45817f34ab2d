/** The compiler's output as text: words, placeholders for branches, and the patching of the placeholders in place. */
module Patching {
  import opened Isa
  import opened HexText
  import opened Opcode
  import opened Emission

  const PLACEHOLDER := "FFFFFFFF"

  /** A branch to be patched: its label, the place of its placeholder in the text, and what it is. */
  datatype Fake = Fake(name: Label, at: nat, kind: Kind)

  function ItemText(item: Item): (s: string)
    ensures |s| == 8
  {
    match item case Ins(i) => InstrText(i) case To(_, _) => PLACEHOLDER
  }

  function ItemsText(items: seq<Item>): string
    decreases |items|
  {
    if items == [] then "" else ItemText(items[0]) + ItemsText(items[1..])
  }

  function EncodeAll(c: seq<Instr>): (ws: seq<nat>)
    ensures |ws| == |c|
  {
    seq(|c|, k requires 0 <= k < |c| => Encode(c[k]))
  }

  /** The text of a sequence of instructions. */
  function CodeText(c: seq<Instr>): string { Text(EncodeAll(c)) }

  lemma {:induction false} ItemsTextAppend(a: seq<Item>, b: seq<Item>)
    ensures ItemsText(a + b) == ItemsText(a) + ItemsText(b)
    decreases |a|
  {
    hide ItemText;
    if a == [] {
      assert a + b == b;
    } else {
      assert (a + b)[0] == a[0] && (a + b)[1..] == a[1..] + b;
      ItemsTextAppend(a[1..], b);
    }
  }

  lemma {:induction false} ItemsTextLength(items: seq<Item>)
    ensures |ItemsText(items)| == 8 * |items|
    decreases |items|
  {
    if items != [] {
      ItemsTextLength(items[1..]);
    }
  }

  lemma {:induction false} ItemsTextCode(c: seq<Instr>)
    ensures ItemsText(Code(c)) == CodeText(c)
    decreases |c|
  {
    hide WordText, Encode;
    if c != [] {
      assert Code(c)[1..] == Code(c[1..]) && EncodeAll(c)[1..] == EncodeAll(c[1..]);
      ItemsTextCode(c[1..]);
    }
  }

  lemma CodeTextAppend(a: seq<Instr>, b: seq<Instr>)
    ensures CodeText(a + b) == CodeText(a) + CodeText(b)
  {
    hide Encode, Text;
    assert EncodeAll(a + b) == EncodeAll(a) + EncodeAll(b);
    TextAppend(EncodeAll(a), EncodeAll(b));
  }

  lemma CodeTextOne(i: Instr)
    ensures CodeText([i]) == InstrText(i)
  {
    hide Encode, WordText;
    var ws := EncodeAll([i]);
    assert ws[0] == Encode(i) && ws[1..] == [];
    assert Text(ws) == WordText(ws[0]) + "";
  }

  lemma CodeTextNone()
    ensures CodeText([]) == ""
  {
    assert EncodeAll([]) == [];
  }

  lemma Slices(a: string, m: string, b: string)
    ensures
      var s := a + (m + b);
      s[..|a|] == a && s[|a|..|a| + |m|] == m && s[|a| + |m|..] == b
  {}

  /** The eight characters of item `k`. */
  lemma ItemAt(items: seq<Item>, k: nat)
    requires k < |items|
    ensures |ItemsText(items)| == 8 * |items| && ItemsText(items)[8 * k..8 * k + 8] == ItemText(items[k])
    ensures ItemsText(items)[..8 * k] == ItemsText(items[..k])
        && ItemsText(items)[8 * k + 8..] == ItemsText(items[k + 1..])
  {
    hide ItemText, ItemsText;
    var a, b := items[..k], items[k + 1..];
    assert items == a + ([items[k]] + b);
    ItemsTextAppend(a, [items[k]] + b);
    ItemsTextAppend([items[k]], b);
    ItemsTextOne(items[k]);
    ItemsTextLength(a);
    ItemsTextLength(items);
    Slices(ItemsText(a), ItemText(items[k]), ItemsText(b));
  }

  lemma ItemsTextOne(item: Item)
    ensures ItemsText([item]) == ItemText(item)
  {
    hide ItemText;
    assert [item][1..] == [];
    assert ItemText(item) + "" == ItemText(item);
  }

  /** Replacing eight characters in place replaces one item. */
  lemma Replaced(items: seq<Item>, k: nat, item: Item)
    requires k < |items|
    ensures |ItemsText(items)| == 8 * |items|
    ensures ItemsText(items[k := item]) == ItemsText(items)[..8 * k] + ItemText(item) + ItemsText(items)[8 * k + 8..]
  {
    hide ItemText;
    ItemAt(items, k);
    var items' := items[k := item];
    ItemAt(items', k);
    assert items'[..k] == items[..k] && items'[k + 1..] == items[k + 1..];
    var s := ItemsText(items');
    assert s == s[..8 * k] + s[8 * k..8 * k + 8] + s[8 * k + 8..];
  }

  /** The branches of the items, with the places of their placeholders. */
  function Fakes(items: seq<Item>): multiset<Fake>
    decreases |items|
  {
    if items == [] then multiset{}
    else
      var k := |items| - 1;
      Fakes(items[..k]) + (match items[k] case Ins(_) => multiset{}
          case To(kind, name) => multiset{Fake(name, 8 * k, kind)})
  }

  lemma {:induction false} FakesCode(items: seq<Item>, c: seq<Instr>)
    ensures Fakes(items + Code(c)) == Fakes(items)
    decreases |c|
  {
    if c == [] {
      assert items + Code(c) == items;
    } else {
      var k := |c| - 1;
      assert (items + Code(c))[..|items| + k] == items + Code(c[..k]);
      FakesCode(items, c[..k]);
    }
  }

  lemma FakesBranch(items: seq<Item>, kind: Kind, name: Label)
    ensures Fakes(items + [To(kind, name)]) == Fakes(items) + multiset{Fake(name, 8 * |items|, kind)}
  {
    assert (items + [To(kind, name)])[..|items|] == items;
  }

  /** Every pending branch is there once, and its place is that of its item. */
  lemma {:induction false} FakesPlaces(items: seq<Item>, x: Fake)
    ensures Fakes(items)[x] <= 1
    ensures x in Fakes(items) <==> x.at % 8 == 0 && x.at / 8 < |items| && items[x.at / 8] == To(x.kind, x.name)
    decreases |items|
  {
    if items != [] {
      var k := |items| - 1;
      FakesPlaces(items[..k], x);
    }
  }

  /** The branch encoders refuse only distances too large for their unsigned range. */
  predicate Accepted(kind: Kind, dist: int) {
    match kind case BCond(_) => dist < 0x8_0000 case _ => dist < 0x400_0000
  }

  /** The distances that the branches can go. */
  predicate Within(kind: Kind, dist: int) {
    match kind case BCond(_) => -0x4_0000 <= dist < 0x4_0000 case _ => -0x200_0000 <= dist < 0x200_0000
  }

  /** An accepted branch goes where it was meant to exactly when its distance is within the signed range. */
  lemma AcceptedExactly(kind: Kind, dist: int)
    ensures Within(kind, dist) ==> Accepted(kind, dist)
    ensures Decode(Encode(BranchTo(kind, dist))) == BranchTo(kind, dist) <==> Within(kind, dist)
  {
    hide Decode, Encode;
    BranchExactly(BranchTo(kind, dist));
  }

  /** The items with those branches resolved that are no longer pending. */
  function Patched(items: seq<Item>, labels: map<Label, nat>, todo: multiset<Fake>): (r: seq<Item>)
    ensures |r| == |items|
  {
    seq(|items|, k requires 0 <= k < |items| =>
      if items[k].To? && Fake(items[k].name, 8 * k, items[k].kind) !in todo then Ins(Resolve(items[k], k, labels))
          else items[k])
  }

  lemma PatchedStart(items: seq<Item>, labels: map<Label, nat>)
    ensures Patched(items, labels, Fakes(items)) == items
  {
    forall k | 0 <= k < |items| ensures Patched(items, labels, Fakes(items))[k] == items[k] {
      if items[k].To? {
        var x := Fake(items[k].name, 8 * k, items[k].kind);
        assert x.at / 8 == k;
        FakesPlaces(items, x);
      }
    }
  }

  lemma PatchedEnd(items: seq<Item>, labels: map<Label, nat>)
    ensures Patched(items, labels, multiset{}) == Code(ResolveAll(items, 0, labels))
  {
    hide Resolve;
    forall k | 0 <= k < |items| ensures Patched(items, labels, multiset{})[k] == Code(ResolveAll(items, 0, labels))[k] {
      assert ResolveAll(items, 0, labels)[k] == Resolve(items[k], 0 + k, labels);
      if items[k].Ins? {
        ResolveIns(items[k].i, k, labels);
      }
    }
  }

  lemma ResolveIns(i: Instr, k: int, labels: map<Label, nat>)
    ensures Resolve(Ins(i), k, labels) == i
  {}

  /** Whether item `j` is a branch that has been patched. */
  predicate Fixed(items: seq<Item>, todo: multiset<Fake>, j: nat)
    requires j < |items|
  {
    items[j].To? && Fake(items[j].name, 8 * j, items[j].kind) !in todo
  }

  lemma FixedStep(items: seq<Item>, todo: multiset<Fake>, x: Fake, j: nat)
    requires x in todo && todo[x] <= 1 && j < |items| && x.at % 8 == 0 && x.at / 8 < |items|
        && items[x.at / 8] == To(x.kind, x.name)
    ensures Fixed(items, todo - multiset{x}, j) <==> Fixed(items, todo, j) || j == x.at / 8
    ensures !Fixed(items, todo, x.at / 8)
  {
    var k := x.at / 8;
    assert Fake(items[k].name, 8 * k, items[k].kind) == x;
  }

  lemma PatchedAt(items: seq<Item>, labels: map<Label, nat>, todo: multiset<Fake>, j: nat)
    requires j < |items|
    ensures Patched(items, labels, todo)[j] == if Fixed(items, todo, j) then Ins(Resolve(items[j], j, labels))
        else items[j]
  {}

  /** Patching one branch. */
  lemma PatchedStep(items: seq<Item>, labels: map<Label, nat>, todo: multiset<Fake>, x: Fake)
    requires x in todo && todo <= Fakes(items)
    ensures x.at % 8 == 0 && x.at / 8 < |items| && items[x.at / 8] == To(x.kind, x.name)
    ensures Patched(items, labels, todo)[x.at / 8] == To(x.kind, x.name)
    ensures Patched(items, labels, todo - multiset{x}) ==
            Patched(items, labels, todo)[x.at / 8 := Ins(BranchTo(x.kind, Target(labels, x.name) - x.at / 8))]
  {
    hide Target, BranchTo, Resolve, Fixed, Patched, Fakes;
    FakesPlaces(items, x);
    assert todo[x] <= Fakes(items)[x];
    var k := x.at / 8;
    var b := Patched(items, labels, todo)[k := Ins(BranchTo(x.kind, Target(labels, x.name) - k))];
    forall j | 0 <= j < |items| ensures Patched(items, labels, todo - multiset{x})[j] == b[j] {
      PatchedItem(items, labels, todo, x, k, j);
    }
    FixedStep(items, todo, x, k);
    PatchedAt(items, labels, todo, k);
  }

  lemma PatchedItem(items: seq<Item>, labels: map<Label, nat>, todo: multiset<Fake>, x: Fake, k: nat, j: nat)
    requires x in todo && todo[x] <= 1 && j < |items| && x.at % 8 == 0 && k == x.at / 8 < |items|
    requires items[k] == To(x.kind, x.name)
    ensures Patched(items, labels, todo - multiset{x})[j] ==
            if j == k then Ins(BranchTo(x.kind, Target(labels, x.name) - k)) else Patched(items, labels, todo)[j]
  {
    hide Target, BranchTo, Resolve, Fixed, Patched;
    FixedStep(items, todo, x, j);
    PatchedAt(items, labels, todo, j);
    PatchedAt(items, labels, todo - multiset{x}, j);
    ResolveTo(x.kind, x.name, k, labels);
  }

  lemma ResolveTo(kind: Kind, name: Label, k: int, labels: map<Label, nat>)
    ensures Resolve(To(kind, name), k, labels) == BranchTo(kind, Target(labels, name) - k)
  {}

  /** The branch of item `k`, if it is one, is accepted. */
  predicate AcceptedAt(items: seq<Item>, labels: map<Label, nat>, k: nat)
    requires k < |items|
  {
    items[k].To? ==> Accepted(items[k].kind, Target(labels, items[k].name) - k)
  }

  /** The patched branches have been accepted. */
  ghost predicate AcceptedSoFar(items: seq<Item>, labels: map<Label, nat>, todo: multiset<Fake>) {
    forall k :: 0 <= k < |items| && Fixed(items, todo, k) ==> AcceptedAt(items, labels, k)
  }

  /** All branches are accepted. */
  ghost predicate AllAccepted(items: seq<Item>, labels: map<Label, nat>) {
    forall k :: 0 <= k < |items| ==> AcceptedAt(items, labels, k)
  }

  lemma NoneFixed(items: seq<Item>, labels: map<Label, nat>)
    ensures AcceptedSoFar(items, labels, Fakes(items))
  {
    forall k | 0 <= k < |items| ensures !Fixed(items, Fakes(items), k) {
      if items[k].To? {
        FakesPlaces(items, Fake(items[k].name, 8 * k, items[k].kind));
        assert 8 * k / 8 == k;
      }
    }
  }

  lemma AcceptedMore(items: seq<Item>, labels: map<Label, nat>, todo: multiset<Fake>, x: Fake)
    requires AcceptedSoFar(items, labels, todo) && x in todo && todo <= Fakes(items)
    requires Accepted(x.kind, Target(labels, x.name) - x.at / 8)
    ensures AcceptedSoFar(items, labels, todo - multiset{x})
  {
    hide Fixed, Accepted, Target;
    FakesPlaces(items, x);
    assert todo[x] <= Fakes(items)[x];
    forall k | 0 <= k < |items| && Fixed(items, todo - multiset{x}, k) ensures AcceptedAt(items, labels, k) {
      FixedStep(items, todo, x, k);
    }
  }

  lemma Refused(items: seq<Item>, labels: map<Label, nat>, x: Fake)
    requires x in Fakes(items) && !Accepted(x.kind, Target(labels, x.name) - x.at / 8)
    ensures !AllAccepted(items, labels)
  {
    hide Accepted, Target;
    FakesPlaces(items, x);
    assert !AcceptedAt(items, labels, x.at / 8);
  }

  lemma AllFixed(items: seq<Item>, labels: map<Label, nat>)
    requires AcceptedSoFar(items, labels, multiset{})
    ensures AllAccepted(items, labels)
  {
    forall k | 0 <= k < |items| ensures AcceptedAt(items, labels, k) {
      if items[k].To? {
        assert Fixed(items, multiset{}, k);
      }
    }
  }

  /** Writing a branch over its placeholder. */
  lemma PatchText(items: seq<Item>, labels: map<Label, nat>, todo: multiset<Fake>, x: Fake, text: string)
    requires x in todo && todo <= Fakes(items) && text == ItemsText(Patched(items, labels, todo))
    ensures x.at % 8 == 0 && x.at + 8 <= |text| && x.at / 8 < |items| && items[x.at / 8] == To(x.kind, x.name)
    ensures text[..x.at] + InstrText(BranchTo(x.kind, Target(labels, x.name) - x.at / 8)) + text[x.at + 8..]
            == ItemsText(Patched(items, labels, todo - multiset{x}))
  {
    hide ItemsText, Patched, Target, BranchTo, InstrText;
    PatchedStep(items, labels, todo, x);
    Replaced(Patched(items, labels, todo), x.at / 8, Ins(BranchTo(x.kind, Target(labels, x.name) - x.at / 8)));
  }
}
