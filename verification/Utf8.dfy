/** The bytes of a JavaScript string, and back. */
module Utf8 {
  import opened Options
  import opened Json
  import opened Base64Url
  import opened Units

  /** Every surrogate has its other half beside it. */
  ghost predicate Paired(t: JsString) {
    || t == []
    || (IsHigh(t[0]) && |t| > 1 && IsLow(t[1]) && Paired(t[2..]))
    || (!IsHigh(t[0]) && !IsLow(t[0]) && Paired(t[1..]))
  }

  function CodePoint(high: Unit, low: Unit): (c: nat)
    requires IsHigh(high) && IsLow(low)
    ensures 0x10000 <= c < 0x110000
  {
    0x10000 + (high - 0xD800) * 0x400 + (low - 0xDC00)
  }

  function OfUnit(u: Unit): (b: seq<Byte>)
    ensures b != []
  {
    if u < 0x80 then [u]
    else if u < 0x800 then [0xC0 + u / 64, 0x80 + u % 64]
    else [0xE0 + u / 4096, 0x80 + u / 64 % 64, 0x80 + u % 64]
  }

  function OfPoint(c: nat): seq<Byte>
    requires 0x10000 <= c < 0x110000
  {
    [0xF0 + c / 262144, 0x80 + c / 4096 % 64, 0x80 + c / 64 % 64, 0x80 + c % 64]
  }

  /** Half a pair on its own becomes U+FFFD. */
  function Encode(t: JsString): seq<Byte> {
    if t == [] then []
    else if IsHigh(t[0]) && |t| > 1 && IsLow(t[1]) then OfPoint(CodePoint(t[0], t[1])) + Encode(t[2..])
    else if IsHigh(t[0]) || IsLow(t[0]) then [0xEF, 0xBF, 0xBD] + Encode(t[1..])
    else OfUnit(t[0]) + Encode(t[1..])
  }

  predicate IsTail(b: Byte) {
    0x80 <= b < 0xC0
  }

  function Then(units: JsString, rest: Option<JsString>): Option<JsString> {
    if rest.None? then None else Some(units + rest.value)
  }

  /** Shortest forms only, no surrogates, nothing above U+10FFFF. */
  function Decode(b: seq<Byte>): Option<JsString> {
    if b == [] then Some([])
    else if b[0] < 0x80 then Then([b[0]], Decode(b[1..]))
    else if 0xC2 <= b[0] < 0xE0 && |b| > 1 && IsTail(b[1]) then
      Then([(b[0] as int - 0xC0) * 64 + (b[1] as int - 0x80)], Decode(b[2..]))
    else if 0xE0 <= b[0] < 0xF0 && |b| > 2 && IsTail(b[1]) && IsTail(b[2]) then
      var u := (b[0] as int - 0xE0) * 4096 + (b[1] as int - 0x80) * 64 + (b[2] as int - 0x80);
      if u < 0x800 || IsHigh(u) || IsLow(u) then None else Then([u], Decode(b[3..]))
    else if 0xF0 <= b[0] < 0xF5 && |b| > 3 && IsTail(b[1]) && IsTail(b[2]) && IsTail(b[3]) then
      var c := (b[0] as int - 0xF0) * 262144 + (b[1] as int - 0x80) * 4096 + (b[2] as int - 0x80) * 64 + (b[3] as int - 0x80);
      if c < 0x10000 || c > 0x10FFFF then None
      else Then([0xD800 + (c - 0x10000) / 0x400, 0xDC00 + (c - 0x10000) % 0x400], Decode(b[4..]))
    else None
  }

  lemma ReadsUnit(u: Unit, rest: seq<Byte>)
    requires !IsHigh(u) && !IsLow(u)
    ensures Decode(OfUnit(u) + rest) == Then([u], Decode(rest))
  {
    var b := OfUnit(u) + rest;
    assert b[|OfUnit(u)|..] == rest;
    assert u / 4096 == u / 64 / 64;
  }

  lemma ReadsPoint(high: Unit, low: Unit, rest: seq<Byte>)
    requires IsHigh(high) && IsLow(low)
    ensures Decode(OfPoint(CodePoint(high, low)) + rest) == Then([high, low], Decode(rest))
  {
    var c := CodePoint(high, low);
    var b := OfPoint(c) + rest;
    assert b[4..] == rest;
    assert c / 4096 == c / 64 / 64 && c / 262144 == c / 64 / 64 / 64;
  }

  lemma {:induction false} DecodeEncode(t: JsString)
    requires Paired(t)
    ensures Decode(Encode(t)) == Some(t)
  {
    if t != [] {
      hide Decode;
      if IsHigh(t[0]) {
        DecodeEncode(t[2..]);
        ReadsPoint(t[0], t[1], Encode(t[2..]));
        assert [t[0], t[1]] + t[2..] == t;
      } else {
        DecodeEncode(t[1..]);
        ReadsUnit(t[0], Encode(t[1..]));
        assert [t[0]] + t[1..] == t;
      }
    } else {
      assert Encode(t) == [];
    }
  }

  lemma TwoBytes(a: Byte, b: Byte)
    requires 0xC2 <= a < 0xE0 && IsTail(b)
    ensures var u := (a as int - 0xC0) * 64 + (b as int - 0x80);
      0x80 <= u < 0x800 && OfUnit(u) == [a, b]
  {
  }

  lemma ThreeBytes(a: Byte, b: Byte, c: Byte)
    requires 0xE0 <= a < 0xF0 && IsTail(b) && IsTail(c)
    ensures var u := (a as int - 0xE0) * 4096 + (b as int - 0x80) * 64 + (c as int - 0x80);
      0 <= u < 0x10000 && (u >= 0x800 ==> OfUnit(u) == [a, b, c])
  {
    var u := (a as int - 0xE0) * 4096 + (b as int - 0x80) * 64 + (c as int - 0x80);
    assert u / 64 == (a as int - 0xE0) * 64 + (b as int - 0x80);
  }

  lemma FourBytes(a: Byte, b: Byte, c: Byte, d: Byte)
    requires 0xF0 <= a < 0xF5 && IsTail(b) && IsTail(c) && IsTail(d)
    ensures var p := (a as int - 0xF0) * 262144 + (b as int - 0x80) * 4096 + (c as int - 0x80) * 64 + (d as int - 0x80);
      0x10000 <= p <= 0x10FFFF ==>
        && OfPoint(p) == [a, b, c, d]
        && var high, low := 0xD800 + (p - 0x10000) / 0x400, 0xDC00 + (p - 0x10000) % 0x400;
        && IsHigh(high) && IsLow(low) && CodePoint(high, low) == p
  {
    var p := (a as int - 0xF0) * 262144 + (b as int - 0x80) * 4096 + (c as int - 0x80) * 64 + (d as int - 0x80);
    assert p / 64 == (a as int - 0xF0) * 4096 + (b as int - 0x80) * 64 + (c as int - 0x80);
    assert p / 4096 == p / 64 / 64 == (a as int - 0xF0) * 64 + (b as int - 0x80);
    assert p / 262144 == p / 64 / 64 / 64;
  }

  /** What is read at all is exactly what would be written: shortest forms, no half pairs, nothing else. */
  lemma {:induction false} EncodeDecode(b: seq<Byte>)
    requires Decode(b).Some?
    ensures Paired(Decode(b).value) && Encode(Decode(b).value) == b
    decreases |b|, 1
  {
    if b != [] {
      hide OfUnit, OfPoint, CodePoint;
      var t := Decode(b).value;
      if b[0] < 0x80 {
        EncodeDecode(b[1..]);
        assert t[1..] == Decode(b[1..]).value && OfUnit(b[0]) == [b[0]] by { OneByte(b[0]); }
        assert b == [b[0]] + b[1..];
      } else if b[0] < 0xE0 {
        EncodeDecode(b[2..]);
        TwoBytes(b[0], b[1]);
        assert t[1..] == Decode(b[2..]).value;
        assert b == [b[0], b[1]] + b[2..];
      } else if b[0] < 0xF0 {
        EncodeDecode(b[3..]);
        ThreeBytes(b[0], b[1], b[2]);
        assert t[1..] == Decode(b[3..]).value;
        assert b == [b[0], b[1], b[2]] + b[3..];
      } else {
        EncodeDecodePair(b);
      }
    }
  }

  lemma {:induction false} EncodeDecodePair(b: seq<Byte>)
    requires b != [] && b[0] >= 0xF0 && Decode(b).Some?
    ensures Paired(Decode(b).value) && Encode(Decode(b).value) == b
    decreases |b|, 0
  {
    hide OfUnit, OfPoint, CodePoint;
    var t := Decode(b).value;
    EncodeDecode(b[4..]);
    FourBytes(b[0], b[1], b[2], b[3]);
    assert t[2..] == Decode(b[4..]).value;
    assert b == [b[0], b[1], b[2], b[3]] + b[4..];
  }

  lemma OneByte(u: Unit)
    requires u < 0x80
    ensures OfUnit(u) == [u]
  {
  }

  /** The examples of section 7 of RFC 3629 whose characters differ in kind: one to four bytes. */
  lemma ExamplesOfTheStandard()
    ensures Encode([0x41, 0x2262, 0x0391, 0x2E]) == [0x41, 0xE2, 0x89, 0xA2, 0xCE, 0x91, 0x2E]
    ensures Encode([0xD84C, 0xDFB4]) == [0xF0, 0xA3, 0x8E, 0xB4]
  {
    assert Encode([0x2E]) == [0x2E];
    assert Encode([0x0391, 0x2E]) == [0xCE, 0x91] + Encode([0x0391, 0x2E][1..]);
    assert Encode([0x2262, 0x0391, 0x2E]) == [0xE2, 0x89, 0xA2] + Encode([0x2262, 0x0391, 0x2E][1..]);
    assert Encode([0x41, 0x2262, 0x0391, 0x2E]) == [0x41] + Encode([0x41, 0x2262, 0x0391, 0x2E][1..]);
    assert CodePoint(0xD84C, 0xDFB4) == 0x233B4;
  }

  /** How many bytes a unit or a pair takes, and which units begin a pair. */
  lemma BytesPerUnit(t: JsString)
    requires t != []
    ensures t[0] < 0x80 ==> Encode(t) == [t[0]] + Encode(t[1..])
    ensures 0x80 <= t[0] < 0x800 ==> |Encode(t)| == 2 + |Encode(t[1..])|
    ensures 0x800 <= t[0] && !(0xD800 <= t[0] <= 0xDBFF && |t| > 1 && 0xDC00 <= t[1] <= 0xDFFF) ==> |Encode(t)| == 3 + |Encode(t[1..])|
    ensures 0xD800 <= t[0] <= 0xDBFF && |t| > 1 && 0xDC00 <= t[1] <= 0xDFFF ==> |Encode(t)| == 4 + |Encode(t[2..])|
    ensures 0xD800 <= t[0] <= 0xDFFF && Encode(t) != [0xEF, 0xBF, 0xBD] + Encode(t[1..]) ==>
      t[0] < 0xDC00 && |t| > 1 && 0xDC00 <= t[1] <= 0xDFFF
  {
  }

  // --- What `JSON.stringify` writes has no half pairs ----------------------------------

  lemma {:induction false} PairedJoins(a: JsString, b: JsString)
    requires Paired(a) && Paired(b)
    ensures Paired(a + b)
  {
    if a == [] {
      assert a + b == b;
    } else if IsHigh(a[0]) {
      PairedJoins(a[2..], b);
      assert (a + b)[2..] == a[2..] + b;
    } else {
      PairedJoins(a[1..], b);
      assert (a + b)[1..] == a[1..] + b;
    }
  }

  ghost predicate Plain(t: JsString) {
    forall i | 0 <= i < |t| :: !IsHigh(t[i]) && !IsLow(t[i])
  }

  lemma {:induction false} PlainIsPaired(t: JsString)
    requires Plain(t)
    ensures Paired(t)
  {
    if t != [] {
      PlainIsPaired(t[1..]);
    }
  }

  lemma {:induction false} EscapedIsPaired(s: JsString)
    ensures Paired(Escaped(s))
  {
    if s == [] {
    } else if IsHigh(s[0]) && |s| > 1 && IsLow(s[1]) {
      EscapedIsPaired(s[2..]);
      assert Escaped(s)[2..] == Escaped(s[2..]);
    } else {
      EscapedIsPaired(s[1..]);
      PlainIsPaired(EscapeUnit(s[0]));
      PairedJoins(EscapeUnit(s[0]), Escaped(s[1..]));
    }
  }

  lemma QuotedIsPaired(s: JsString)
    ensures Paired(Quoted(s))
  {
    EscapedIsPaired(s);
    PlainIsPaired([0x22]);
    PairedJoins(Escaped(s), [0x22]);
    PairedJoins([0x22], Escaped(s) + [0x22]);
  }
}
