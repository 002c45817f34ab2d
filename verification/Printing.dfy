/**
 Modules in the binary format, and what reading them gives: sections 5.5.4, 5.5.6, 5.5.10 and 5.5.13 of WebAssembly Core
 Specification 1.0.
 */
module Printing {
  import opened Numbers
  import opened Results
  import opened HexText
  import opened Sections

  datatype Export = Export(name: seq<Byte>, kind: Byte, index: Byte)

  datatype Code = Code(declares: Byte, bytes: seq<Byte>)

  datatype Part =
    | TypePart(sigs: seq<Sig>)
    | FunctionPart(indices: seq<Byte>)
    | ExportPart(exports: seq<Export>)
    | CodePart(codes: seq<Code>)
    | OtherPart(id: Byte, content: seq<Byte>)

  // Bytes.

  /** A number below 128 in LEB128. */
  function One(n: nat): Byte { n % 0x80 }

  function TypeByte(t: ValType): Byte { match t case I32 => 0x7F case I64 => 0x7E case F32 => 0x7D case F64 => 0x7C }

  function TypeBytes(ts: seq<ValType>): seq<Byte> { if ts == [] then [] else [TypeByte(ts[0])] + TypeBytes(ts[1..]) }

  function SigBytes(f: Sig): seq<Byte> {
    [0x60, One(|f.params|)] + (TypeBytes(f.params) + ([One(|f.results|)] + TypeBytes(f.results)))
  }

  function SigsBytes(fs: seq<Sig>): seq<Byte> { if fs == [] then [] else SigBytes(fs[0]) + SigsBytes(fs[1..]) }

  function ExportBytes(e: Export): seq<Byte> { [One(|e.name|)] + (e.name + [e.kind, e.index]) }

  function ExportsBytes(es: seq<Export>): seq<Byte> {
    if es == [] then [] else ExportBytes(es[0]) + ExportsBytes(es[1..])
  }

  function CodeBody(c: Code): seq<Byte> { [One(|c.bytes| + 1), c.declares] + c.bytes }

  function CodesBytes(cs: seq<Code>): seq<Byte> { if cs == [] then [] else CodeBody(cs[0]) + CodesBytes(cs[1..]) }

  function Id(p: Part): Byte {
    match p
    case TypePart(_) => 1
    case FunctionPart(_) => 3
    case ExportPart(_) => 7
    case CodePart(_) => 10
    case OtherPart(id, _) => id
  }

  function Content(p: Part): seq<Byte> {
    match p
    case TypePart(fs) => [One(|fs|)] + SigsBytes(fs)
    case FunctionPart(indices) => [One(|indices|)] + indices
    case ExportPart(es) => [One(|es|)] + ExportsBytes(es)
    case CodePart(cs) => [One(|cs|)] + CodesBytes(cs)
    case OtherPart(_, content) => content
  }

  function PartBytes(p: Part): seq<Byte> { [Id(p), One(|Content(p)|)] + Content(p) }

  function AllBytes(ps: seq<Part>): seq<Byte> { if ps == [] then [] else PartBytes(ps[0]) + AllBytes(ps[1..]) }

  /**
   The section's content is below 128 bytes, so all lengths and counts in it are too; and it is of the kind that it
   says.
   */
  predicate Short(p: Part) {
    |Content(p)| < 0x80 && (p.OtherPart? ==> p.id != 1 && p.id != 3 && p.id != 7 && p.id != 10)
  }

  const HEADER: seq<Byte> := [0x00, 0x61, 0x73, 0x6D, 0x01, 0x00, 0x00, 0x00]

  const LOWER: string := "0123456789abcdef"

  function LowByte(b: Byte): string { [LOWER[b / 16], LOWER[b % 16]] }

  /** The text of a file's bytes. */
  function Dump(bs: seq<Byte>): (s: string)
    ensures |s| == 2 * |bs|
  {
    seq(2 * |bs|, k requires 0 <= k < 2 * |bs| => LowByte(bs[k / 2])[k % 2])
  }

  // What a module says.

  function Name(e: Export): string { Ascii(e.name) }

  function IndexOf(es: seq<Export>, m: map<string, nat>): map<string, nat>
    decreases |es|
  {
    if es == [] then m else IndexOf(es[1..], m[Name(es[0]) := es[0].index])
  }

  function NameOf(es: seq<Export>, m: map<nat, string>): map<nat, string>
    decreases |es|
  {
    if es == [] then m else NameOf(es[1..], m[es[0].index := Name(es[0])])
  }

  /** The bytes of a body, each as text. */
  function Texts(bs: seq<Byte>): seq<string> { seq(|bs|, k requires 0 <= k < |bs| => LowByte(bs[k])) }

  function BodiesOf(cs: seq<Code>): seq<Body> {
    seq(|cs|, k requires 0 <= k < |cs| => Body(cs[k].declares, Texts(cs[k].bytes)))
  }

  function Indices(bs: seq<Byte>): seq<nat> { seq(|bs|, k requires 0 <= k < |bs| => bs[k]) }

  function Said(p: Part, m: Module): Module {
    match p
    case TypePart(fs) => m.(types := m.types + fs)
    case FunctionPart(indices) => m.(functions := m.functions + Indices(indices))
    case ExportPart(es) => m.(indexOf := IndexOf(es, m.indexOf), nameOf := NameOf(es, m.nameOf))
    case CodePart(cs) => m.(bodies := m.bodies + BodiesOf(cs))
    case OtherPart(_, _) => m
  }

  function AllSaid(ps: seq<Part>, m: Module): Module
    decreases |ps|
  {
    if ps == [] then m else AllSaid(ps[1..], Said(ps[0], m))
  }

  /** The maps hold each name's last export, and each index's. */
  lemma {:induction false} LastExport(es: seq<Export>, i: nat, indexOf: map<string, nat>, nameOf: map<nat, string>)
    requires i < |es|
    ensures (forall j :: i < j < |es| ==> Name(es[j]) != Name(es[i])) ==>
              Name(es[i]) in IndexOf(es, indexOf) && IndexOf(es, indexOf)[Name(es[i])] == es[i].index
    ensures (forall j :: i < j < |es| ==> es[j].index != es[i].index) ==>
              es[i].index as nat in NameOf(es, nameOf) && NameOf(es, nameOf)[es[i].index] == Name(es[i])
    decreases |es|
  {
    var rest, names, indices := es[1..], indexOf[Name(es[0]) := es[0].index], nameOf[es[0].index as nat := Name(es[0])];
    if i > 0 {
      LastExport(rest, i - 1, names, indices);
      assert forall j :: i - 1 < j < |rest| ==> rest[j] == es[j + 1];
    } else {
      Untouched(rest, es[0], names, indices);
    }
  }

  lemma {:induction false} Untouched(es: seq<Export>, e: Export, indexOf: map<string, nat>, nameOf: map<nat, string>)
    requires Name(e) in indexOf && e.index as nat in nameOf
    ensures (forall j :: 0 <= j < |es| ==> Name(es[j]) != Name(e)) ==>
              Name(e) in IndexOf(es, indexOf) && IndexOf(es, indexOf)[Name(e)] == indexOf[Name(e)]
    ensures (forall j :: 0 <= j < |es| ==> es[j].index != e.index) ==>
              e.index as nat in NameOf(es, nameOf) && NameOf(es, nameOf)[e.index] == nameOf[e.index]
    decreases |es|
  {
    if es != [] {
      var rest := es[1..];
      assert forall j :: 0 <= j < |rest| ==> rest[j] == es[j + 1];
      Untouched(rest, e, indexOf[Name(es[0]) := es[0].index], nameOf[es[0].index as nat := Name(es[0])]);
    }
  }

  /** Names are different texts exactly when they are different bytes. */
  lemma SameName(e: Export, f: Export)
    ensures Name(e) == Name(f) <==> e.name == f.name
  {
    if Name(e) == Name(f) {
      forall k | 0 <= k < |e.name| ensures e.name[k] == f.name[k] {
        assert Name(e)[k] as int == e.name[k];
      }
    }
  }

  /**
   The maps in terms of the characters: the text whose character codes are the bytes of a name leads to the index of the
   last export of that name, and its index to that text.
   */
  lemma LastNamed(es: seq<Export>, i: nat, t: string, indexOf: map<string, nat>, nameOf: map<nat, string>)
    requires i < |es| && |t| == |es[i].name| && forall k :: 0 <= k < |t| ==> t[k] as int == es[i].name[k]
    ensures (forall j :: i < j < |es| ==> es[j].name != es[i].name) ==>
              t in IndexOf(es, indexOf) && IndexOf(es, indexOf)[t] == es[i].index
    ensures (forall j :: i < j < |es| ==> es[j].index != es[i].index) ==>
              es[i].index as nat in NameOf(es, nameOf) && NameOf(es, nameOf)[es[i].index] == t
  {
    hide IndexOf, NameOf;
    NamedBy(es[i], t);
    forall j | i < j < |es| ensures Name(es[j]) == Name(es[i]) <==> es[j].name == es[i].name {
      SameName(es[j], es[i]);
    }
    hide Name;
    LastExport(es, i, indexOf, nameOf);
  }

  lemma NamedBy(e: Export, t: string)
    requires |t| == |e.name| && forall k :: 0 <= k < |t| ==> t[k] as int == e.name[k]
    ensures Name(e) == t
  {
    forall k | 0 <= k < |t| ensures Name(e)[k] == t[k] {
      assert Name(e)[k] as int == t[k] as int;
    }
  }

  // Text of bytes.

  lemma LowDigits(d: nat)
    requires d < 16
    ensures DigitValue(LOWER[d]) == Some(d)
  {}

  lemma DumpHex(bs: seq<Byte>)
    ensures IsHex(Dump(bs))
  {
    forall k | 0 <= k < 2 * |bs| ensures DigitValue(Dump(bs)[k]).Some? {
      LowDigits(bs[k / 2] / 16);
      LowDigits(bs[k / 2] % 16);
    }
  }

  lemma DumpAt(bs: seq<Byte>, k: nat)
    requires k < |bs|
    ensures IsHex(Dump(bs)) && Two(Dump(bs), 2 * k) == Ok(LowByte(bs[k])) && Number(Dump(bs), 2 * k) == Ok(bs[k])
  {
    DumpHex(bs);
    LowDigits(bs[k] / 16);
    LowDigits(bs[k] % 16);
    var s := Dump(bs);
    assert s[2 * k] == LOWER[bs[k] / 16] && s[2 * k + 1] == LOWER[bs[k] % 16];
    assert s[2 * k..2 * k + 2] == LowByte(bs[k]);
  }

  lemma DumpPart(bs: seq<Byte>, i: nat, j: nat)
    requires i <= j <= |bs|
    ensures Dump(bs)[2 * i..2 * j] == Dump(bs[i..j])
  {
    var s, t := Dump(bs)[2 * i..2 * j], Dump(bs[i..j]);
    forall k | 0 <= k < |t| ensures s[k] == t[k] {
      assert (2 * i + k) / 2 == i + k / 2 && (2 * i + k) % 2 == k % 2;
    }
  }

  lemma DumpBytes(bs: seq<Byte>)
    ensures IsHex(Dump(bs)) && Bytes(Dump(bs)) == bs
  {
    DumpHex(bs);
    forall k | 0 <= k < |bs| ensures Bytes(Dump(bs))[k] == bs[k] {
      DumpAt(bs, k);
      assert ByteAt(Dump(bs), k) == bs[k];
    }
  }

  lemma TypeText(t: ValType)
    ensures TypeOf(LowByte(TypeByte(t))) == [t]
  {}

  // Reading at a place where something was written.

  /** `b` has `part` at `k`. */
  ghost predicate Holds(b: seq<Byte>, k: nat, part: seq<Byte>) { k + |part| <= |b| && b[k..k + |part|] == part }

  lemma HoldsTwo(b: seq<Byte>, k: nat, x: seq<Byte>, y: seq<Byte>)
    requires Holds(b, k, x + y)
    ensures Holds(b, k, x) && Holds(b, k + |x|, y)
  {
    var n := |x|;
    assert b[k..k + n] == b[k..k + n + |y|][..n] == x;
    assert b[k + n..k + n + |y|] == b[k..k + n + |y|][n..] == y;
  }

  lemma HoldsAt(b: seq<Byte>, k: nat, x: seq<Byte>, i: nat)
    requires Holds(b, k, x) && i < |x|
    ensures k + i < |b| && b[k + i] == x[i]
    ensures IsHex(Dump(b)) && Two(Dump(b), 2 * (k + i)) == Ok(LowByte(x[i])) && Number(Dump(b), 2 * (k + i)) == Ok(x[i])
  {
    assert b[k..k + |x|][i] == x[i];
    DumpAt(b, k + i);
  }

  lemma {:induction false} TypesBack(b: seq<Byte>, k: nat, ts: seq<ValType>, done: seq<ValType>)
    requires Holds(b, k, TypeBytes(ts))
    ensures Types(Dump(b), 2 * k, |ts|, done) == Ok(done + ts) && |TypeBytes(ts)| == |ts|
    decreases |ts|
  {
    hide Two, Dump, TypeOf, Holds, TypeByte;
    if ts == [] {
      assert done + ts == done;
    } else {
      HoldsTwo(b, k, [TypeByte(ts[0])], TypeBytes(ts[1..]));
      HoldsAt(b, k, [TypeByte(ts[0])], 0);
      TypeText(ts[0]);
      TypesBack(b, k + 1, ts[1..], done + [ts[0]]);
      assert done + [ts[0]] + ts[1..] == done + ts;
    }
  }

  lemma {:induction false} TypeBytesLength(ts: seq<ValType>)
    ensures |TypeBytes(ts)| == |ts|
    decreases |ts|
  {
    if ts != [] {
      TypeBytesLength(ts[1..]);
    }
  }

  lemma SigFrom(s: string, at: nat, f: Sig)
    requires IsHex(s) && Number(s, at + 2) == Ok(|f.params|) && Types(s, at + 4, |f.params|, []) == Ok(f.params)
    requires Number(s, at + 4 + 2 * |f.params|) == Ok(|f.results|)
    requires Types(s, at + 6 + 2 * |f.params|, |f.results|, []) == Ok(f.results)
    ensures SigAt(s, at) == Ok((f, at + 6 + 2 * |f.params| + 2 * |f.results|))
  {
    hide Number, Types, IsHex;
  }

  /** Where the parts of a function type lie. */
  lemma SigHolds(b: seq<Byte>, k: nat, f: Sig)
    requires Holds(b, k, SigBytes(f)) && |SigBytes(f)| < 0x80
    ensures |SigBytes(f)| == 3 + |f.params| + |f.results|
    ensures Holds(b, k, [0x60, |f.params|]) && Holds(b, k + 2, TypeBytes(f.params))
    ensures Holds(b, k + 2 + |f.params|, [|f.results|]) && Holds(b, k + 3 + |f.params|, TypeBytes(f.results))
  {
    hide TypeBytes, Holds;
    var n, m := |f.params|, |f.results|;
    TypeBytesLength(f.params);
    TypeBytesLength(f.results);
    HoldsTwo(b, k, [0x60, One(n)], TypeBytes(f.params) + ([One(m)] + TypeBytes(f.results)));
    HoldsTwo(b, k + 2, TypeBytes(f.params), [One(m)] + TypeBytes(f.results));
    HoldsTwo(b, k + 2 + n, [One(m)], TypeBytes(f.results));
  }

  lemma SigBack(b: seq<Byte>, k: nat, f: Sig)
    requires Holds(b, k, SigBytes(f)) && |SigBytes(f)| < 0x80
    ensures IsHex(Dump(b)) && SigAt(Dump(b), 2 * k) == Ok((f, 2 * (k + |SigBytes(f)|)))
  {
    hide Number, Dump, Types, TypeBytes, Holds, IsHex, SigBytes, SigAt, Two;
    var n := |f.params|;
    SigHolds(b, k, f);
    HoldsAt(b, k, [0x60, n], 1);
    HoldsAt(b, k + 2 + n, [|f.results|], 0);
    TypesBack(b, k + 2, f.params, []);
    TypesBack(b, k + 3 + n, f.results, []);
    assert [] + f.params == f.params && [] + f.results == f.results;
    SigFrom(Dump(b), 2 * k, f);
  }

  lemma {:induction false} SigsBack(b: seq<Byte>, k: nat, fs: seq<Sig>, done: seq<Sig>)
    requires Holds(b, k, SigsBytes(fs)) && |SigsBytes(fs)| < 0x80
    ensures IsHex(Dump(b)) && Sigs(Dump(b), 2 * k, |fs|, done) == Ok(done + fs) && |fs| <= |SigsBytes(fs)|
    decreases |fs|
  {
    hide SigAt, Dump, SigBytes, Holds, IsHex;
    DumpHex(b);
    if fs == [] {
      assert done + fs == done;
    } else {
      SigLength(fs[0]);
      HoldsTwo(b, k, SigBytes(fs[0]), SigsBytes(fs[1..]));
      SigBack(b, k, fs[0]);
      SigsBack(b, k + |SigBytes(fs[0])|, fs[1..], done + [fs[0]]);
      assert done + [fs[0]] + fs[1..] == done + fs;
    }
  }

  lemma SigLength(f: Sig)
    ensures |SigBytes(f)| >= 3
  {}

  lemma {:induction false} FunctionsBack(b: seq<Byte>, k: nat, indices: seq<Byte>, done: seq<nat>)
    requires Holds(b, k, indices)
    ensures IsHex(Dump(b)) && Functions(Dump(b), 2 * k, |indices|, done) == Ok(done + Indices(indices))
    decreases |indices|
  {
    hide Number, Dump, Holds, IsHex;
    DumpHex(b);
    if indices == [] {
      assert done + Indices(indices) == done;
    } else {
      assert indices == [indices[0]] + indices[1..];
      HoldsTwo(b, k, [indices[0]], indices[1..]);
      HoldsAt(b, k, [indices[0]], 0);
      FunctionsBack(b, k + 1, indices[1..], done + [indices[0] as nat]);
      assert done + [indices[0] as nat] + Indices(indices[1..]) == done + Indices(indices);
    }
  }

  lemma NameBack(b: seq<Byte>, k: nat, name: seq<Byte>)
    requires Holds(b, k, name)
    ensures IsHex(Dump(b)) && NameAt(Dump(b), 2 * k, |name|) == Ok(Ascii(name))
  {
    hide IsHex, Bytes;
    DumpHex(b);
    DumpPart(b, k, k + |name|);
    DumpBytes(name);
  }

  lemma ExportFrom(s: string, at: nat, e: Export)
    requires IsHex(s) && Number(s, at) == Ok(|e.name|) && NameAt(s, at + 2, |e.name|) == Ok(Name(e))
    requires Number(s, at + 2 * |e.name| + 2) == Ok(e.kind) && Number(s, at + 2 * |e.name| + 4) == Ok(e.index)
    ensures ExportAt(s, at) == Ok((Name(e), e.index as nat, at + 2 * |e.name| + 6))
  {
    hide Number, NameAt, IsHex, Name;
  }

  lemma ExportBack(b: seq<Byte>, k: nat, e: Export)
    requires Holds(b, k, ExportBytes(e)) && |e.name| < 0x80
    ensures IsHex(Dump(b)) && ExportAt(Dump(b), 2 * k) == Ok((Name(e), e.index as nat, 2 * (k + |ExportBytes(e)|)))
  {
    hide Number, Dump, NameAt, Holds, IsHex, ExportAt, Two, ExportBytes, Name;
    var n := |e.name|;
    ExportHolds(b, k, e);
    HoldsAt(b, k, [n], 0);
    NameBack(b, k + 1, e.name);
    NameIs(e);
    HoldsAt(b, k + 1 + n, [e.kind, e.index], 0);
    HoldsAt(b, k + 1 + n, [e.kind, e.index], 1);
    ExportFrom(Dump(b), 2 * k, e);
  }

  lemma NameIs(e: Export)
    ensures Name(e) == Ascii(e.name)
  {}

  /** Where the parts of an export lie. */
  lemma ExportHolds(b: seq<Byte>, k: nat, e: Export)
    requires Holds(b, k, ExportBytes(e)) && |e.name| < 0x80
    ensures |ExportBytes(e)| == |e.name| + 3
    ensures Holds(b, k, [|e.name|]) && Holds(b, k + 1, e.name) && Holds(b, k + 1 + |e.name|, [e.kind, e.index])
  {
    hide Holds;
    HoldsTwo(b, k, [One(|e.name|)], e.name + [e.kind, e.index]);
    HoldsTwo(b, k + 1, e.name, [e.kind, e.index]);
  }

  lemma {:induction false} ExportsBack(b: seq<Byte>, k: nat, es: seq<Export>, indexOf: map<string, nat>,
      nameOf: map<nat, string>)
    requires Holds(b, k, ExportsBytes(es)) && |ExportsBytes(es)| < 0x80
    ensures IsHex(Dump(b)) && Exports(Dump(b), 2 * k, |es|, indexOf, nameOf) ==
        Ok((IndexOf(es, indexOf), NameOf(es, nameOf)))
    ensures |es| <= |ExportsBytes(es)|
    decreases |es|
  {
    hide ExportAt, Dump, Holds, IsHex, Name;
    DumpHex(b);
    if es != [] {
      var e := es[0];
      HoldsTwo(b, k, ExportBytes(e), ExportsBytes(es[1..]));
      ExportBack(b, k, e);
      ExportsBack(b, k + |ExportBytes(e)|, es[1..], indexOf[Name(e) := e.index], nameOf[e.index as nat := Name(e)]);
    }
  }

  lemma {:induction false} BytesBack(b: seq<Byte>, k: nat, bytes: seq<Byte>, done: seq<string>)
    requires Holds(b, k, bytes)
    ensures CodeBytes(Dump(b), 2 * k, |bytes|, done) == Ok(done + Texts(bytes))
    decreases |bytes|
  {
    hide Two, Dump, Holds, LowByte;
    if bytes == [] {
      assert done + Texts(bytes) == done;
    } else {
      assert bytes == [bytes[0]] + bytes[1..];
      HoldsTwo(b, k, [bytes[0]], bytes[1..]);
      HoldsAt(b, k, [bytes[0]], 0);
      BytesBack(b, k + 1, bytes[1..], done + [LowByte(bytes[0])]);
      assert done + [LowByte(bytes[0])] + Texts(bytes[1..]) == done + Texts(bytes);
    }
  }

  lemma CodeFrom(s: string, at: nat, c: Code)
    requires IsHex(s) && Number(s, at) == Ok(|c.bytes| + 1) && Number(s, at + 2) == Ok(c.declares)
    requires CodeBytes(s, at + 4, |c.bytes|, []) == Ok(Texts(c.bytes))
    ensures BodyAt(s, at) == Ok((Body(c.declares, Texts(c.bytes)), at + 2 * |c.bytes| + 4))
  {
    hide Number, CodeBytes, IsHex, Texts;
  }

  lemma CodeBack(b: seq<Byte>, k: nat, c: Code)
    requires Holds(b, k, CodeBody(c)) && |CodeBody(c)| < 0x80
    ensures IsHex(Dump(b)) && BodyAt(Dump(b), 2 * k) == Ok((Body(c.declares, Texts(c.bytes)), 2 * (k + |CodeBody(c)|)))
  {
    hide Number, Dump, CodeBytes, Holds, IsHex, Texts, BodyAt, Two;
    HoldsTwo(b, k, [One(|c.bytes| + 1), c.declares], c.bytes);
    HoldsAt(b, k, [One(|c.bytes| + 1), c.declares], 0);
    HoldsAt(b, k, [One(|c.bytes| + 1), c.declares], 1);
    BytesBack(b, k + 2, c.bytes, []);
    assert [] + Texts(c.bytes) == Texts(c.bytes);
    CodeFrom(Dump(b), 2 * k, c);
  }

  lemma {:induction false} CodesBack(b: seq<Byte>, k: nat, cs: seq<Code>, done: seq<Body>)
    requires Holds(b, k, CodesBytes(cs)) && |CodesBytes(cs)| < 0x80
    ensures IsHex(Dump(b)) && Bodies(Dump(b), 2 * k, |cs|, done) == Ok(done + BodiesOf(cs)) && |cs| <= |CodesBytes(cs)|
    decreases |cs|
  {
    hide BodyAt, Dump, Holds, IsHex, Texts;
    DumpHex(b);
    if cs == [] {
      assert done + BodiesOf(cs) == done;
    } else {
      var one := Body(cs[0].declares, Texts(cs[0].bytes));
      HoldsTwo(b, k, CodeBody(cs[0]), CodesBytes(cs[1..]));
      CodeBack(b, k, cs[0]);
      CodesBack(b, k + |CodeBody(cs[0])|, cs[1..], done + [one]);
      assert done + [one] + BodiesOf(cs[1..]) == done + BodiesOf(cs);
    }
  }

  lemma IdText(p: Part)
    requires Short(p)
    ensures LowByte(Id(p)) == "01" <==> p.TypePart?
    ensures LowByte(Id(p)) == "03" <==> p.FunctionPart?
    ensures LowByte(Id(p)) == "07" <==> p.ExportPart?
    ensures LowByte(Id(p)) == "0a" <==> p.CodePart?
  {
    var b := Id(p);
    LowDigits(b / 16);
    LowDigits(b % 16);
    assert b == 16 * (b / 16) + b % 16;
  }

  /** A section's text adds what the section says. */
  lemma SectionBack(p: Part, b: seq<Byte>, m: Module)
    requires Short(p) && Holds(b, 0, Content(p))
    ensures IsHex(Dump(b)) && Section(LowByte(Id(p)), Dump(b), m) == Ok(Said(p, m))
  {
    hide Number, Dump, Holds, IsHex, LowByte, Sigs, Functions, Exports, Bodies, SigsBytes, ExportsBytes, CodesBytes,
         BodiesOf, Indices, IndexOf, NameOf;
    DumpHex(b);
    IdText(p);
    match p
    case TypePart(fs) =>
      HoldsTwo(b, 0, [One(|fs|)], SigsBytes(fs));
      HoldsAt(b, 0, [One(|fs|)], 0);
      SigsBack(b, 1, fs, m.types);
    case FunctionPart(indices) =>
      HoldsTwo(b, 0, [One(|indices|)], indices);
      HoldsAt(b, 0, [One(|indices|)], 0);
      FunctionsBack(b, 1, indices, m.functions);
    case ExportPart(es) =>
      HoldsTwo(b, 0, [One(|es|)], ExportsBytes(es));
      HoldsAt(b, 0, [One(|es|)], 0);
      ExportsBack(b, 1, es, m.indexOf, m.nameOf);
    case CodePart(cs) =>
      HoldsTwo(b, 0, [One(|cs|)], CodesBytes(cs));
      HoldsAt(b, 0, [One(|cs|)], 0);
      CodesBack(b, 1, cs, m.bodies);
    case OtherPart(_, _) =>
  }

  lemma FirstTwo(b: seq<Byte>)
    requires |b| > 0
    ensures Dump(b)[..2] == LowByte(b[0])
  {
    DumpAt(b, 0);
    assert Dump(b)[..2] == Dump(b)[0..2];
  }

  /** The text of a section and more: what is cropped and what is left. */
  lemma FirstPart(p: Part, rest: seq<Byte>)
    requires Short(p)
    ensures
      var s, more := Dump(PartBytes(p) + rest), Content(p) + rest;
      && IsHex(s) && |s| >= 4 && s[..2] == LowByte(Id(p)) && Number(s, 2) == Ok(|Content(p)|)
      && s[4..] == Dump(more) && Holds(more, 0, Content(p)) && 2 * |Content(p)| <= |s[4..]|
          && s[4..][2 * |Content(p)|..] == Dump(rest)
  {
    hide Dump, IsHex, LowByte, Content, Number, Two;
    var b, more, n := PartBytes(p) + rest, Content(p) + rest, |Content(p)|;
    assert b == [Id(p), One(n)] + more;
    DumpAt(b, 1);
    FirstTwo(b);
    DumpPart(b, 2, |b|);
    assert b[2..|b|] == more && Dump(b)[4..] == Dump(b)[4..2 * |b|];
    assert more[0..n] == Content(p);
    DumpPart(more, n, |more|);
    assert more[n..|more|] == rest && Dump(more)[2 * n..] == Dump(more)[2 * n..2 * |more|];
  }

  /** Behind a whole section reading goes on. */
  lemma RestBehind(p: Part, rest: seq<Byte>, m: Module)
    requires Short(p)
    ensures IsHex(Dump(PartBytes(p) + rest)) && IsHex(Dump(rest))
    ensures Rest(Dump(PartBytes(p) + rest), m) == Rest(Dump(rest), Said(p, m))
  {
    hide Number, Dump, IsHex, LowByte, Content, Section, Said, Rest;
    DumpHex(PartBytes(p) + rest);
    DumpHex(rest);
    FirstPart(p, rest);
    SectionBack(p, Content(p) + rest, m);
    RestStep(Dump(PartBytes(p) + rest), m);
  }

  lemma {:induction false} RestBack(ps: seq<Part>, m: Module)
    requires forall p :: p in ps ==> Short(p)
    ensures IsHex(Dump(AllBytes(ps))) && Rest(Dump(AllBytes(ps)), m) == Ok(AllSaid(ps, m))
    decreases |ps|
  {
    hide Number, Dump, IsHex, LowByte, Content, Section, Said, Rest;
    var b := AllBytes(ps);
    DumpHex(b);
    if ps == [] {
      RestDone(m);
      assert Dump(b) == "";
    } else {
      RestBehind(ps[0], AllBytes(ps[1..]), m);
      RestBack(ps[1..], Said(ps[0], m));
    }
  }

  lemma HeaderText()
    ensures Dump(HEADER)[..8] == MAGIC
  {
    var s := Dump(HEADER);
    assert LowByte(0) == "00" && LowByte(0x61) == "61" && LowByte(0x73) == "73" && LowByte(0x6D) == "6d";
    assert s[0] == '0' && s[1] == '0' && s[2] == '6' && s[3] == '1' && s[4] == '7' && s[5] == '3' && s[6] == '6'
        && s[7] == 'd';
  }

  /** The text of a header and more. */
  lemma HeaderFirst(rest: seq<Byte>)
    ensures Dump(HEADER + rest)[..8] == MAGIC && Dump(HEADER + rest)[16..] == Dump(rest)
  {
    hide Dump;
    var b := HEADER + rest;
    HeaderText();
    DumpPart(b, 0, 8);
    assert b[0..8] == HEADER;
    DumpPart(b, 8, |b|);
    assert b[8..|b|] == rest;
    var s := Dump(b);
    assert s[..8] == s[0..16][..8];
    assert s[16..] == s[16..2 * |b|];
  }

  /** Reading a module's text gives what the module says, for every list of sections that are short. */
  lemma ModuleBack(ps: seq<Part>)
    requires forall p :: p in ps ==> Short(p)
    ensures IsHex(Dump(HEADER + AllBytes(ps))) && Parsed(Dump(HEADER + AllBytes(ps))) == Ok(AllSaid(ps, NOTHING))
  {
    hide Dump, IsHex, Rest, AllSaid, Short, AllBytes;
    DumpHex(HEADER + AllBytes(ps));
    HeaderFirst(AllBytes(ps));
    RestBack(ps, NOTHING);
    ParsedIs(Dump(HEADER + AllBytes(ps)));
  }

  // What is refused.

  /** The type bytes in plain numbers; no other byte names a type, and it is passed over. */
  lemma TypeExactly(b: Byte)
    ensures TypeOf(LowByte(b)) ==
        if b == 0x7F then [I32] else if b == 0x7E then [I64] else if b == 0x7D then [F32]
        else if b == 0x7C then [F64] else []
  {
    LowDigits(b / 16);
    LowDigits(b % 16);
    assert b == 16 * (b / 16) + b % 16;
  }

  /** A number is read exactly where there is a byte. */
  lemma NumberExactly(b: seq<Byte>, k: nat)
    ensures IsHex(Dump(b)) && Number(Dump(b), 2 * k) == if k < |b| then Ok(b[k]) else Err(Malformed)
  {
    hide Dump;
    DumpHex(b);
    if k < |b| {
      DumpAt(b, k);
    }
  }

  /** A list of numbers is read exactly when it ends within the bytes. */
  lemma {:induction false} FunctionsExactly(b: seq<Byte>, k: nat, n: nat, done: seq<nat>)
    ensures IsHex(Dump(b)) && (Functions(Dump(b), 2 * k, n, done).Ok? <==> n == 0 || k + n <= |b|)
    decreases n
  {
    hide Dump, Number;
    NumberExactly(b, k);
    if n > 0 && k < |b| {
      FunctionsExactly(b, k + 1, n - 1, done + [b[k] as nat]);
    }
  }

  /** A name is read exactly when it ends within the bytes. */
  lemma NameExactly(b: seq<Byte>, k: nat, n: nat)
    ensures IsHex(Dump(b)) && (NameAt(Dump(b), 2 * k, n).Ok? <==> k + n <= |b|)
  {
    DumpHex(b);
  }

  /** A body of size 0 is refused: the number of its bytes wraps around. */
  lemma NoBody(b: seq<Byte>, k: nat)
    requires k < |b| && b[k] == 0
    ensures IsHex(Dump(b)) && BodyAt(Dump(b), 2 * k).Err?
  {
    hide Number, Dump;
    NumberExactly(b, k);
    NumberExactly(b, k + 1);
  }

  /** Whether byte `c` is the end of one of the sections, or their beginning. */
  predicate Boundary(ps: seq<Part>, c: nat)
    decreases |ps|
  {
    c == 0 || (ps != [] && |PartBytes(ps[0])| <= c && Boundary(ps[1..], c - |PartBytes(ps[0])|))
  }

  /** A section that is cut off. */
  lemma PartCut(p: Part, b: seq<Byte>, m: Module)
    requires Short(p) && 0 < |b| < |PartBytes(p)| && b == PartBytes(p)[..|b|]
    ensures IsHex(Dump(b)) && Rest(Dump(b), m).Err?
  {
    hide Dump, IsHex, LowByte, Content, Number, Two, Rest, Section;
    DumpHex(b);
    if |b| == 1 {
      RestShort(Dump(b), m);
    } else {
      NumberExactly(b, 1);
      RestStep(Dump(b), m);
    }
  }

  lemma {:induction false} RestCut(ps: seq<Part>, c: nat, m: Module)
    requires (forall p :: p in ps ==> Short(p)) && c <= |AllBytes(ps)|
    ensures IsHex(Dump(AllBytes(ps)[..c])) && (Rest(Dump(AllBytes(ps)[..c]), m).Ok? <==> Boundary(ps, c))
    decreases |ps|
  {
    hide Number, Dump, IsHex, LowByte, Content, Section, Said, Rest, PartBytes;
    var b := AllBytes(ps)[..c];
    DumpHex(b);
    if c == 0 {
      RestDone(m);
      assert Dump(b) == "";
    } else {
      var p, n := ps[0], |PartBytes(ps[0])|;
      if c < n {
        assert b == PartBytes(p)[..c];
        PartCut(p, b, m);
      } else {
        var rest := AllBytes(ps[1..])[..c - n];
        assert b == PartBytes(p) + rest;
        RestBehind(p, rest, m);
        RestCut(ps[1..], c - n, Said(p, m));
      }
    }
  }

  /** A module of short sections that is cut off after `c` bytes is accepted exactly at the end of a section. */
  lemma CutOff(ps: seq<Part>, c: nat)
    requires (forall p :: p in ps ==> Short(p)) && c <= 8 + |AllBytes(ps)|
    ensures
      var t := Dump((HEADER + AllBytes(ps))[..c]);
      IsHex(t) && (Parsed(t).Ok? <==> c >= 8 && Boundary(ps, c - 8))
  {
    hide Dump, IsHex, Rest, Short, AllBytes, Boundary;
    var b := (HEADER + AllBytes(ps))[..c];
    DumpHex(b);
    ParsedIs(Dump(b));
    if c >= 8 {
      var rest := AllBytes(ps)[..c - 8];
      assert b == HEADER + rest;
      RestCut(ps, c - 8, NOTHING);
      HeaderFirst(rest);
    }
  }

  /**
   A section of 128 bytes or more, its length in the two bytes that LEB128 takes up to 16383, is never skipped whole:
   reading goes on inside its content.
   */
  lemma LongSection(id: Byte, content: seq<Byte>, rest: seq<Byte>, m: Module)
    requires id != 1 && id != 3 && id != 7 && id != 10 && 0x80 <= |content| < 0x4000
    ensures
      var n := |content|;
      var at := 0x7F + n % 0x80;
      && at < n && IsHex(Dump([id, 0x80 + n % 0x80, n / 0x80] + content + rest)) && IsHex(Dump(content[at..] + rest))
      && Rest(Dump([id, 0x80 + n % 0x80, n / 0x80] + content + rest), m) == Rest(Dump(content[at..] + rest), m)
  {
    hide Dump, IsHex, LowByte, Number, Two, Rest, Section;
    var n := |content|;
    var at, length := 0x7F + n % 0x80, 0x80 + n % 0x80;
    assert at < n;
    var b, more := [id, length, n / 0x80] + content + rest, [n / 0x80] + content + rest;
    var p := OtherPart(id, []);
    DumpHex(b);
    DumpHex(content[at..] + rest);
    DumpAt(b, 1);
    FirstTwo(b);
    DumpPart(b, 2, |b|);
    assert b[2..|b|] == more && Dump(b)[4..] == Dump(b)[4..2 * |b|];
    IdText(p);
    DumpHex(more);
    OtherSection(LowByte(id), Dump(more), m);
    RestStep(Dump(b), m);
    DumpPart(more, length, |more|);
    assert more[length..|more|] == content[at..] + rest
        && Dump(more)[2 * length..] == Dump(more)[2 * length..2 * |more|];
  }
}
