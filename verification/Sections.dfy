/**
 The reader of modules: hexadecimal text, two digits a byte, cropped section by section. Every length and count is taken
 from one byte.
 */
module Sections {
  import opened Results
  import opened HexText

  datatype ValType = I32 | I64 | F32 | F64

  /** A function type. */
  datatype Sig = Sig(params: seq<ValType>, results: seq<ValType>)

  /** A function body: the number of its declarations of locals, and its bytes as text. */
  datatype Body = Body(declares: nat, code: seq<string>)

  /** What has been read. */
  datatype Module = Module(types: seq<Sig>, functions: seq<nat>, indexOf: map<string, nat>, nameOf: map<nat, string>,
      bodies: seq<Body>)

  // What is read: from place `at` on, `n` more of a list, after those in `done`.

  /** `s.substr(at, 2)`: cut short by the end of the text, an exception behind it. */
  function Two(s: string, at: nat): Result<string> {
    if at > |s| then Err(Malformed) else Ok(s[at..if at + 2 <= |s| then at + 2 else |s|])
  }

  /** The number of one or two digits; none is an exception. */
  function Number(s: string, at: nat): Result<nat>
    requires IsHex(s)
  {
    if at >= |s| then Err(Malformed)
    else if at + 1 == |s| then Ok(DigitValue(s[at]).value)
    else Ok(16 * DigitValue(s[at]).value + DigitValue(s[at + 1]).value)
  }

  /** The type that a byte names; no other byte names one. */
  function TypeOf(byte: string): seq<ValType> {
    if byte == "7f" then [I32] else if byte == "7e" then [I64] else if byte == "7d" then [F32] else if byte ==
        "7c" then [F64] else []
  }

  function Types(s: string, at: nat, n: nat, done: seq<ValType>): Result<seq<ValType>>
    decreases n
  {
    if n == 0 then Ok(done)
    else
      var byte :- Two(s, at);
      Types(s, at + 2, n - 1, done + TypeOf(byte))
  }

  /** A function type, and the place behind it. */
  function SigAt(s: string, at: nat): Result<(Sig, nat)>
    requires IsHex(s)
  {
    var params :- Number(s, at + 2);
    var ps :- Types(s, at + 4, params, []);
    var results :- Number(s, at + 4 + 2 * params);
    var rs :- Types(s, at + 6 + 2 * params, results, []);
    Ok((Sig(ps, rs), at + 6 + 2 * params + 2 * results))
  }

  function Sigs(s: string, at: nat, n: nat, done: seq<Sig>): Result<seq<Sig>>
    requires IsHex(s)
    decreases n
  {
    if n == 0 then Ok(done)
    else
      var one :- SigAt(s, at);
      Sigs(s, one.1, n - 1, done + [one.0])
  }

  function Functions(s: string, at: nat, n: nat, done: seq<nat>): Result<seq<nat>>
    requires IsHex(s)
    decreases n
  {
    if n == 0 then Ok(done)
    else
      var one :- Number(s, at);
      Functions(s, at + 2, n - 1, done + [one])
  }

  /** The characters whose codes are the bytes. */
  function Ascii(bs: seq<Byte>): string { seq(|bs|, k requires 0 <= k < |bs| => bs[k] as char) }

  lemma HexPart(s: string, i: nat, j: nat)
    requires IsHex(s) && i <= j <= |s|
    ensures IsHex(s[i..j])
  {}

  /** A name of `size` bytes. One that is cut short is followed by no number, which is an exception too. */
  function NameAt(s: string, at: nat, size: nat): Result<string>
    requires IsHex(s)
  {
    if at + 2 * size > |s| then Err(Malformed)
    else
      HexPart(s, at, at + 2 * size);
      Ok(Ascii(Bytes(s[at..at + 2 * size])))
  }

  /** An exported function: its name, its index, and the place behind it. */
  function ExportAt(s: string, at: nat): Result<(string, nat, nat)>
    requires IsHex(s)
  {
    var size :- Number(s, at);
    var name :- NameAt(s, at + 2, size);
    var _ :- Number(s, at + 2 * size + 2);
    var index :- Number(s, at + 2 * size + 4);
    Ok((name, index, at + 2 * size + 6))
  }

  /** A later entry replaces an earlier one. */
  function Exports(s: string, at: nat, n: nat, indexOf: map<string, nat>, nameOf: map<nat,
      string>): Result<(map<string, nat>, map<nat, string>)>
    requires IsHex(s)
    decreases n
  {
    if n == 0 then Ok((indexOf, nameOf))
    else
      var one :- ExportAt(s, at);
      Exports(s, one.2, n - 1, indexOf[one.0 := one.1], nameOf[one.1 := one.0])
  }

  function CodeBytes(s: string, at: nat, n: nat, done: seq<string>): Result<seq<string>>
    decreases n
  {
    if n == 0 then Ok(done)
    else
      var byte :- Two(s, at);
      CodeBytes(s, at + 2, n - 1, done + [byte])
  }

  /** A body, and the place behind it. A size of zero makes the count of bytes wrap around: the text ends before. */
  function BodyAt(s: string, at: nat): Result<(Body, nat)>
    requires IsHex(s)
  {
    var size :- Number(s, at);
    var declares :- Number(s, at + 2);
    if size == 0 then Err(Malformed)
    else
      var code :- CodeBytes(s, at + 4, size - 1, []);
      Ok((Body(declares, code), at + 2 * size + 2))
  }

  function Bodies(s: string, at: nat, n: nat, done: seq<Body>): Result<seq<Body>>
    requires IsHex(s)
    decreases n
  {
    if n == 0 then Ok(done)
    else
      var one :- BodyAt(s, at);
      Bodies(s, one.1, n - 1, done + [one.0])
  }

  /** What a section adds; one of another kind adds nothing. */
  function Section(id: string, s: string, m: Module): Result<Module>
    requires IsHex(s)
  {
    if id == "01" then
      var count :- Number(s, 0);
      var sigs :- Sigs(s, 2, count, m.types);
      Ok(m.(types := sigs))
    else if id == "03" then
      var count :- Number(s, 0);
      var fs :- Functions(s, 2, count, m.functions);
      Ok(m.(functions := fs))
    else if id == "07" then
      var count :- Number(s, 0);
      var es :- Exports(s, 2, count, m.indexOf, m.nameOf);
      Ok(m.(indexOf := es.0, nameOf := es.1))
    else if id == "0a" then
      var count :- Number(s, 0);
      var bs :- Bodies(s, 2, count, m.bodies);
      Ok(m.(bodies := bs))
    else Ok(m)
  }

  /** All sections: an identifier, a length and at least as many bytes as the length says. */
  function Rest(s: string, m: Module): Result<Module>
    requires IsHex(s)
    decreases |s|
  {
    if s == "" then Ok(m)
    else if |s| < 4 then Err(Malformed)
    else
      HexPart(s, 4, |s|);
      var length :- Number(s, 2);
      var m' :- Section(s[..2], s[4..], m);
      if 2 * length > |s[4..]| then Err(Malformed)
      else
        HexPart(s[4..], 2 * length, |s[4..]|);
        Rest(s[4..][2 * length..], m')
  }

  const MAGIC: string := "0061736d"

  const NOTHING := Module([], [], map[], map[], [])

  function Parsed(s: string): Result<Module>
    requires IsHex(s)
  {
    if |s| < 16 || s[..8] != MAGIC then Err(Malformed)
    else
      HexPart(s, 16, |s|);
      Rest(s[16..], NOTHING)
  }

  lemma ExportBehind(s: string, at: nat)
    requires IsHex(s) && ExportAt(s, at).Ok?
    ensures ExportAt(s, at).value.2 >= at
  {}

  lemma BodyBehind(s: string, at: nat)
    requires IsHex(s) && BodyAt(s, at).Ok?
    ensures BodyAt(s, at).value.1 >= at
  {}

  lemma RestDone(m: Module)
    ensures IsHex("") && Rest("", m) == Ok(m)
  {}

  lemma RestShort(s: string, m: Module)
    requires IsHex(s) && 0 < |s| < 4
    ensures Rest(s, m) == Err(Malformed)
  {}

  lemma RestStep(s: string, m: Module)
    requires IsHex(s) && |s| >= 4
    ensures IsHex(s[4..]) && Number(s, 2).Ok?
    ensures
      var length, more := Number(s, 2).value, s[4..];
      match Section(s[..2], more, m)
      case Err(e) => Rest(s, m) == Err(e)
      case Ok(m') =>
        if 2 * length > |more| then Rest(s, m).Err?
        else IsHex(more[2 * length..]) && Rest(s, m) == Rest(more[2 * length..], m')
  {
    hide Section, DigitValue;
    HexPart(s, 4, |s|);
    if 2 * Number(s, 2).value <= |s[4..]| {
      HexPart(s[4..], 2 * Number(s, 2).value, |s[4..]|);
    }
  }

  lemma ParsedIs(s: string)
    requires IsHex(s)
    ensures Parsed(s) == if |s| >= 16 && s[..8] == MAGIC
        then (HexPart(s, 16, |s|); Rest(s[16..], NOTHING))
        else Err(Malformed)
  {
    hide Rest;
  }

  lemma OtherSection(id: string, s: string, m: Module)
    requires IsHex(s) && id != "01" && id != "03" && id != "07" && id != "0a"
    ensures Section(id, s, m) == Ok(m)
  {}

  class Parser {
    var s: string
    var length: nat
    var wasmTypeVec: seq<Sig>
    var funcTypeVec: seq<nat>
    var funcNameIndexMapper: map<string, nat>
    var funcIndexNameMapper: map<nat, string>
    var wasmFunctionVec: seq<Body>

    ghost function Contents(): Module
      reads this
    {
      Module(wasmTypeVec, funcTypeVec, funcNameIndexMapper, funcIndexNameMapper, wasmFunctionVec)
    }

    constructor (text: string)
      ensures s == text && length == 0 && Contents() == NOTHING
    {
      s, length := text, 0;
      wasmTypeVec, funcTypeVec, funcNameIndexMapper, funcIndexNameMapper, wasmFunctionVec := [], [], map[], map[], [];
    }

    method InitialCheck() returns (st: Status)
      modifies `s
      ensures st == if |old(s)| >= 16 && old(s)[..8] == MAGIC then Done else Failed(Malformed)
      ensures st.Done? ==> s == old(s)[16..]
    {
      if |s| < 8 || s[..8] != MAGIC {
        return Failed(Malformed);
      }
      s := s[8..];
      if |s| < 8 {
        return Failed(Malformed);
      }
      s := s[8..];
      return Done;
    }

    method ReadTypes(at: nat, n: nat) returns (r: Result<seq<ValType>>)
      ensures r == Types(s, at, n, [])
    {
      var ts := [];
      for j := 0 to n
        invariant Types(s, at + 2 * j, n - j, ts) == Types(s, at, n, [])
      {
        var byte :- Two(s, at + 2 * j);
        ts := ts + TypeOf(byte);
      }
      return Ok(ts);
    }

    method ReadSig(at: nat) returns (r: Result<(Sig, nat)>)
      requires IsHex(s)
      ensures r == SigAt(s, at)
    {
      hide Types, Number, IsHex;
      var base := at;
      var params :- Number(s, base + 2);
      base := base + 2;
      var ps :- ReadTypes(base + 2, params);
      base := base + 2 + 2 * params;
      var results :- Number(s, base);
      var rs :- ReadTypes(base + 2, results);
      base := base + 2 + 2 * results;
      return Ok((Sig(ps, rs), base));
    }

    method ParseType() returns (st: Status)
      requires IsHex(s)
      modifies `wasmTypeVec
      ensures st == (if Section("01", s, old(Contents())).Ok? then Done else Failed(Malformed))
      ensures st.Done? ==> Section("01", s, old(Contents())) == Ok(Contents())
    {
      hide SigAt, IsHex, Number;
      var count := Number(s, 0);
      if count.Err? {
        return Failed(Malformed);
      }
      var base := 2;
      for i := 0 to count.value
        invariant Sigs(s, base, count.value - i, wasmTypeVec) == Sigs(s, 2, count.value, old(wasmTypeVec))
      {
        var one := ReadSig(base);
        if one.Err? {
          return Failed(Malformed);
        }
        base := one.value.1;
        wasmTypeVec := wasmTypeVec + [one.value.0];
      }
      return Done;
    }

    method ParseFunction() returns (st: Status)
      requires IsHex(s)
      modifies `funcTypeVec
      ensures st == (if Section("03", s, old(Contents())).Ok? then Done else Failed(Malformed))
      ensures st.Done? ==> Section("03", s, old(Contents())) == Ok(Contents())
    {
      var count := Number(s, 0);
      if count.Err? {
        return Failed(Malformed);
      }
      for i := 0 to count.value
        invariant Functions(s, 2 * i + 2, count.value - i, funcTypeVec) ==
            Functions(s, 2, count.value, old(funcTypeVec))
      {
        var functionType := Number(s, 2 * i + 2);
        if functionType.Err? {
          return Failed(Malformed);
        }
        funcTypeVec := funcTypeVec + [functionType.value];
      }
      return Done;
    }

    method ReadExport(at: nat) returns (r: Result<(string, nat, nat)>)
      requires IsHex(s)
      ensures r == ExportAt(s, at)
    {
      hide NameAt, Number, IsHex;
      var size :- Number(s, at);
      var name :- NameAt(s, at + 2, size);
      var kind :- Number(s, at + 2 * size + 2);
      var index :- Number(s, at + 2 * size + 4);
      return Ok((name, index, at + 2 * size + 6));
    }

    method ParseExport() returns (st: Status)
      requires IsHex(s)
      modifies `funcNameIndexMapper, `funcIndexNameMapper
      ensures st == (if Section("07", s, old(Contents())).Ok? then Done else Failed(Malformed))
      ensures st.Done? ==> Section("07", s, old(Contents())) == Ok(Contents())
    {
      hide ExportAt, IsHex, Number;
      var count := Number(s, 0);
      if count.Err? {
        return Failed(Malformed);
      }
      var base := 0;
      for i := 0 to count.value
        invariant Exports(s, base + 2, count.value - i, funcNameIndexMapper, funcIndexNameMapper) ==
                  Exports(s, 2, count.value, old(funcNameIndexMapper), old(funcIndexNameMapper))
      {
        var one := ReadExport(base + 2);
        if one.Err? {
          return Failed(Malformed);
        }
        funcNameIndexMapper := funcNameIndexMapper[one.value.0 := one.value.1];
        funcIndexNameMapper := funcIndexNameMapper[one.value.1 := one.value.0];
        ExportBehind(s, base + 2);
        base := one.value.2 - 2;
      }
      return Done;
    }

    method ReadCode(at: nat, n: nat) returns (r: Result<seq<string>>)
      ensures r == CodeBytes(s, at, n, [])
    {
      var opcodes := [];
      for j := 0 to n
        invariant CodeBytes(s, at + 2 * j, n - j, opcodes) == CodeBytes(s, at, n, [])
      {
        var byte :- Two(s, at + 2 * j);
        opcodes := opcodes + [byte];
      }
      return Ok(opcodes);
    }

    method ReadBody(at: nat) returns (r: Result<(Body, nat)>)
      requires IsHex(s)
      ensures r == BodyAt(s, at)
    {
      hide CodeBytes, Number, IsHex;
      var size :- Number(s, at);
      var declares :- Number(s, at + 2);
      if size == 0 {
        return Err(Malformed);
      }
      var opcodes :- ReadCode(at + 4, size - 1);
      return Ok((Body(declares, opcodes), at + 2 * size + 2));
    }

    method ParseCode() returns (st: Status)
      requires IsHex(s)
      modifies `wasmFunctionVec
      ensures st == (if Section("0a", s, old(Contents())).Ok? then Done else Failed(Malformed))
      ensures st.Done? ==> Section("0a", s, old(Contents())) == Ok(Contents())
    {
      hide BodyAt, IsHex, Number;
      var count := Number(s, 0);
      if count.Err? {
        return Failed(Malformed);
      }
      var base := 0;
      for i := 0 to count.value
        invariant Bodies(s, base + 2, count.value - i, wasmFunctionVec) ==
            Bodies(s, 2, count.value, old(wasmFunctionVec))
      {
        var one := ReadBody(base + 2);
        if one.Err? {
          return Failed(Malformed);
        }
        BodyBehind(s, base + 2);
        base := one.value.1 - 2;
        wasmFunctionVec := wasmFunctionVec + [one.value.0];
      }
      return Done;
    }

    /** Reads the whole text, which is used up: every round crops at least the identifier and the length. */
    method Parse() returns (st: Status)
      requires IsHex(s) && Contents() == NOTHING
      modifies this
      ensures st == (if Parsed(old(s)).Ok? then Done else Failed(Malformed))
      ensures st.Done? ==> Parsed(old(s)) == Ok(Contents()) && s == ""
    {
      hide Section, IsHex, Number, Rest, Parsed;
      ParsedIs(s);
      st := InitialCheck();
      if st.Failed? {
        return;
      }
      ghost var text := s;
      HexPart(old(s), 16, |old(s)|);
      assert s == old(s)[16..|old(s)|];
      while |s| > 0
        invariant IsHex(s) && IsHex(text) && Rest(s, Contents()) == Rest(text, NOTHING)
        invariant st.Done?
        decreases |s|
      {
        if |s| < 4 {
          RestShort(s, Contents());
          return Failed(Malformed);
        }
        var id := s[..2];
        ghost var before := Contents();
        RestStep(s, before);
        length := Number(s, 2).value;
        s := s[4..];
        if id == "01" {
          st := ParseType();
        } else if id == "03" {
          st := ParseFunction();
        } else if id == "07" {
          st := ParseExport();
        } else if id == "0a" {
          st := ParseCode();
        } else {
          OtherSection(id, s, before);
        }
        if st.Failed? {
          return;
        }
        if 2 * length > |s| {
          return Failed(Malformed);
        }
        s := s[2 * length..];
      }
      RestDone(Contents());
    }
  }
}
