/**
 JSON texts over UTF-16 code units: what `JSON.stringify` writes, what a reader following
 RFC 8259 makes of a text, and the rewriting that lets a text sit inside a script element.
 */
module Json {
  import opened Options
  import opened Units

  // --- Values -------------------------------------------------------------------

  /** Numbers are kept as they are written. */
  datatype Value = Null | Flag(on: bool) | Number(lexeme: JsString) | Text(s: JsString) | Array(items: Items) | Object(members: Members)

  datatype Items = NoItems | Items(first: Value, others: Items)

  datatype Members = NoMembers | Members(key: JsString, value: Value, others: Members)

  predicate IsDigit(u: Unit) {
    0x30 <= u <= 0x39
  }

  predicate InNumber(u: Unit) {
    IsDigit(u) || u == 0x2B || u == 0x2D || u == 0x2E || u == 0x45 || u == 0x65
  }

  function AfterDigits(t: JsString): (rest: JsString)
    ensures |rest| <= |t|
  {
    if t != [] && IsDigit(t[0]) then AfterDigits(t[1..]) else t
  }

  /** Section 6 of RFC 8259: minus, int, frac, exp. */
  predicate IsNumber(t: JsString) {
    var a := if t != [] && t[0] == 0x2D then t[1..] else t;
    && a != [] && IsDigit(a[0])
    && AfterWhole(if a[0] == 0x30 then a[1..] else AfterDigits(a))
    && forall i | 0 <= i < |t| :: InNumber(t[i])
  }

  /** What may follow the whole part: a fraction and an exponent, or one of them, or nothing. */
  predicate AfterWhole(b: JsString) {
    if b != [] && b[0] == 0x2E then |b| > 1 && IsDigit(b[1]) && AfterFraction(AfterDigits(b[1..])) else AfterFraction(b)
  }

  predicate AfterFraction(c: JsString) {
    c == [] || ((c[0] == 0x45 || c[0] == 0x65) && IsExponent(c[1..]))
  }

  predicate IsExponent(t: JsString) {
    var d := if t != [] && (t[0] == 0x2B || t[0] == 0x2D) then t[1..] else t;
    d != [] && AfterDigits(d) == []
  }

  // --- The grammar of section 6 of RFC 8259 ----------------------------------------------

  ghost predicate SomeDigits(t: JsString) {
    t != [] && forall u | u in t :: '0' as int <= u <= '9' as int
  }

  ghost predicate WholePart(t: JsString) {
    SomeDigits(t) && (|t| == 1 || t[0] != '0' as int)
  }

  ghost predicate Fraction(t: JsString) {
    t == [] || (t[0] == '.' as int && SomeDigits(t[1..]))
  }

  ghost predicate Exponent(t: JsString) {
    t == [] ||
    ((t[0] == 'e' as int || t[0] == 'E' as int) &&
     (SomeDigits(t[1..]) || (|t| > 1 && (t[1] == '+' as int || t[1] == '-' as int) && SomeDigits(t[2..]))))
  }

  /** A number in its parts. */
  ghost predicate NumberOf(t: JsString, sign: JsString, whole: JsString, fraction: JsString, exponent: JsString) {
    && t == sign + (whole + (fraction + exponent))
    && (sign == [] || sign == ['-' as int]) && WholePart(whole) && Fraction(fraction) && Exponent(exponent)
  }

  lemma {:induction false} DigitsThen(digits: JsString, rest: JsString)
    requires (forall u | u in digits :: IsDigit(u)) && (rest == [] || !IsDigit(rest[0]))
    ensures AfterDigits(digits + rest) == rest
  {
    if digits == [] {
      assert digits + rest == rest;
    } else {
      assert (digits + rest)[1..] == digits[1..] + rest;
      DigitsThen(digits[1..], rest);
    }
  }

  lemma {:induction false} DigitsOf(t: JsString) returns (digits: JsString)
    ensures t == digits + AfterDigits(t) && forall u | u in digits :: IsDigit(u)
    ensures t != [] && IsDigit(t[0]) ==> digits != [] && digits[0] == t[0]
    ensures AfterDigits(t) == [] || !IsDigit(AfterDigits(t)[0])
  {
    if t != [] && IsDigit(t[0]) {
      var more := DigitsOf(t[1..]);
      digits := [t[0]] + more;
      assert t == [t[0]] + t[1..];
    } else {
      digits := [];
    }
  }

  lemma NoDigitsLeft(t: JsString)
    ensures t != [] && AfterDigits(t) == [] <==> SomeDigits(t)
  {
    var digits := DigitsOf(t);
    if SomeDigits(t) {
      DigitsThen(t, []);
      assert t + [] == t;
    }
  }

  lemma DigitFirst(t: JsString)
    requires SomeDigits(t)
    ensures IsDigit(t[0]) && InNumber(t[0])
  {
    assert t[0] in t;
  }

  lemma ExponentIsRead(t: JsString)
    ensures AfterFraction(t) <==> Exponent(t)
  {
    if t != [] {
      var d := t[1..];
      NoDigitsLeft(d);
      if d != [] {
        NoDigitsLeft(d[1..]);
        assert d[1..] == t[2..];
      }
      if SomeDigits(d) {
        DigitFirst(d);
      }
      hide SomeDigits, AfterDigits;
    }
  }

  lemma TailIsRead(fraction: JsString, exponent: JsString)
    requires Fraction(fraction) && Exponent(exponent)
    ensures AfterWhole(fraction + exponent)
    ensures fraction + exponent == [] || !IsDigit((fraction + exponent)[0])
  {
    var b := fraction + exponent;
    ExponentIsRead(exponent);
    if fraction != [] {
      DigitFirst(fraction[1..]);
      assert b[0] == 0x2E && b[1..] == fraction[1..] + exponent && b[1] == fraction[1];
      DigitsThen(fraction[1..], exponent);
    } else {
      assert b == exponent;
    }
    hide AfterFraction, AfterDigits;
  }

  lemma TailInParts(b: JsString) returns (fraction: JsString, exponent: JsString)
    requires AfterWhole(b)
    ensures b == fraction + exponent && Fraction(fraction) && Exponent(exponent)
  {
    if b != [] && b[0] == 0x2E {
      var digits := DigitsOf(b[1..]);
      ExponentIsRead(AfterDigits(b[1..]));
      hide AfterFraction, AfterDigits, Exponent;
      fraction, exponent := [b[0]] + digits, AfterDigits(b[1..]);
      assert fraction[1..] == digits && b == [b[0]] + b[1..];
    } else {
      ExponentIsRead(b);
      fraction, exponent := [], b;
    }
  }

  lemma PartsInNumber(whole: JsString, fraction: JsString, exponent: JsString)
    requires WholePart(whole) && Fraction(fraction) && Exponent(exponent)
    ensures forall u | u in whole || u in fraction || u in exponent :: InNumber(u)
  {
    assert fraction != [] ==> fraction == [fraction[0]] + fraction[1..];
    assert exponent != [] ==> exponent == [exponent[0]] + exponent[1..];
    assert |exponent| > 1 ==> exponent == [exponent[0], exponent[1]] + exponent[2..];
  }

  lemma PartsRead(t: JsString, sign: JsString, whole: JsString, fraction: JsString, exponent: JsString)
    requires NumberOf(t, sign, whole, fraction, exponent)
    ensures IsNumber(t)
  {
    var b := fraction + exponent;
    var a := whole + b;
    DigitFirst(whole);
    TailIsRead(fraction, exponent);
    PartsInNumber(whole, fraction, exponent);
    forall i | 0 <= i < |t| ensures InNumber(t[i]) {
      assert t[i] in sign || t[i] in whole || t[i] in fraction || t[i] in exponent;
    }
    hide AfterWhole, Fraction, Exponent, AfterDigits, InNumber;
    assert t == sign + a && a[0] == whole[0];
    if whole[0] == 0x30 {
      assert a[1..] == b;
    } else {
      DigitsThen(whole, b);
    }
    if sign != [] {
      assert t[1..] == a;
    } else {
      assert t == a;
    }
  }

  lemma NumberInParts(t: JsString) returns (sign: JsString, whole: JsString, fraction: JsString, exponent: JsString)
    requires IsNumber(t)
    ensures NumberOf(t, sign, whole, fraction, exponent)
  {
    var a := if t[0] == 0x2D then t[1..] else t;
    sign := if t[0] == 0x2D then [t[0]] else [];
    assert t == sign + a;
    var b := if a[0] == 0x30 then a[1..] else AfterDigits(a);
    fraction, exponent := TailInParts(b);
    hide AfterWhole, Fraction, Exponent, AfterDigits, InNumber;
    if a[0] == 0x30 {
      whole := [a[0]];
    } else {
      whole := DigitsOf(a);
    }
    assert a == whole + b && WholePart(whole);
  }

  /** What is read as a number is what that grammar calls one. */
  lemma NumbersAreThese(t: JsString)
    ensures IsNumber(t) <==> exists sign, whole, fraction, exponent :: NumberOf(t, sign, whole, fraction, exponent)
  {
    if IsNumber(t) {
      var sign, whole, fraction, exponent := NumberInParts(t);
    }
    if sign, whole, fraction, exponent :| NumberOf(t, sign, whole, fraction, exponent) {
      PartsRead(t, sign, whole, fraction, exponent);
    }
  }

  ghost predicate Sound(v: Value) {
    match v
    case Number(lexeme) => IsNumber(lexeme)
    case Array(items) => ItemsSound(items)
    case Object(members) => MembersSound(members)
    case _ => true
  }

  ghost predicate ItemsSound(items: Items) {
    items.Items? ==> Sound(items.first) && ItemsSound(items.others)
  }

  ghost predicate MembersSound(members: Members) {
    members.Members? ==> Sound(members.value) && MembersSound(members.others)
  }

  // --- Strings ----------------------------------------------------------------------

  function HexDigit(n: nat): (u: Unit)
    requires n < 16
    ensures u < 0x80
  {
    if n < 10 then 0x30 + n else 0x61 + n - 10
  }

  function HexValue(u: Unit): (n: Option<nat>)
    ensures n.Some? ==> n.value < 16
  {
    if IsDigit(u) then Some(u - 0x30)
    else if 0x61 <= u <= 0x66 then Some(u - 0x61 + 10)
    else if 0x41 <= u <= 0x46 then Some(u - 0x41 + 10)
    else None
  }

  /** Backslash, `u` and four hexadecimal digits. */
  function UnicodeEscape(u: Unit): (e: JsString)
    ensures |e| == 6 && forall i | 0 <= i < 6 :: e[i] < 0x80
  {
    [0x5C, 0x75, HexDigit(u / 4096), HexDigit(u / 256 % 16), HexDigit(u / 16 % 16), HexDigit(u % 16)]
  }

  function FourDigits(t: JsString): Option<Unit>
    requires |t| == 4
  {
    var a, b, c, d := HexValue(t[0]), HexValue(t[1]), HexValue(t[2]), HexValue(t[3]);
    if a.Some? && b.Some? && c.Some? && d.Some?
    then Some(((a.value * 16 + b.value) * 16 + c.value) * 16 + d.value) else None
  }

  lemma FourDigitsOf(u: Unit)
    ensures u / 4096 < 16
    ensures ((u / 4096 * 16 + u / 256 % 16) * 16 + u / 16 % 16) * 16 + u % 16 == u
  {
    assert u / 256 == u / 16 / 16 && u / 4096 == u / 16 / 16 / 16;
  }

  lemma UnicodeEscapeRoundTrip(u: Unit)
    ensures FourDigits(UnicodeEscape(u)[2..]) == Some(u)
  {
    FourDigitsOf(u);
    var a, b, c, d := u / 4096, u / 256 % 16, u / 16 % 16, u % 16;
    hide HexDigit, HexValue;
    assert UnicodeEscape(u)[2..] == [HexDigit(a), HexDigit(b), HexDigit(c), HexDigit(d)];
  }

  predicate IsHigh(u: Unit) {
    0xD800 <= u <= 0xDBFF
  }

  predicate IsLow(u: Unit) {
    0xDC00 <= u <= 0xDFFF
  }

  /** One unit that is not half of a pair, as `JSON.stringify` writes it. */
  function EscapeUnit(u: Unit): (e: JsString)
    ensures e != []
  {
    if u == 0x22 || u == 0x5C then [0x5C, u]
    else if u == 0x08 then [0x5C, 0x62]
    else if u == 0x09 then [0x5C, 0x74]
    else if u == 0x0A then [0x5C, 0x6E]
    else if u == 0x0C then [0x5C, 0x66]
    else if u == 0x0D then [0x5C, 0x72]
    else if u < 0x20 || IsHigh(u) || IsLow(u) then UnicodeEscape(u)
    else [u]
  }

  /** The inside of a quoted string; pairs of surrogates stay as they are. */
  function Escaped(s: JsString): JsString {
    if s == [] then []
    else if IsHigh(s[0]) && |s| > 1 && IsLow(s[1]) then [s[0], s[1]] + Escaped(s[2..])
    else EscapeUnit(s[0]) + Escaped(s[1..])
  }

  function Quoted(s: JsString): JsString {
    [0x22] + (Escaped(s) + [0x22])
  }

  /** What a backslash and this unit stand for. */
  function ShortEscape(u: Unit): Option<Unit> {
    if u == 0x22 || u == 0x5C || u == 0x2F then Some(u)
    else if u == 0x62 then Some(0x08)
    else if u == 0x66 then Some(0x0C)
    else if u == 0x6E then Some(0x0A)
    else if u == 0x72 then Some(0x0D)
    else if u == 0x74 then Some(0x09)
    else None
  }

  /** The escapes of section 7 of RFC 8259, and the digits of the longer ones. */
  lemma EscapesReadAre(u: Unit)
    ensures ShortEscape('"' as int) == Some('"' as int) && ShortEscape('\\' as int) == Some('\\' as int)
    ensures ShortEscape('/' as int) == Some('/' as int)
    ensures ShortEscape('b' as int) == Some(0x08) && ShortEscape('f' as int) == Some(0x0C)
    ensures ShortEscape('n' as int) == Some('\n' as int) && ShortEscape('r' as int) == Some('\r' as int)
    ensures ShortEscape('t' as int) == Some('\t' as int)
    ensures ShortEscape(u).Some? ==>
      u in ['"' as int, '\\' as int, '/' as int, 'b' as int, 'f' as int, 'n' as int, 'r' as int, 't' as int]
    ensures HexValue(u).Some? <==> '0' as int <= u <= '9' as int || 'a' as int <= u <= 'f' as int || 'A' as int <= u <= 'F' as int
    ensures '0' as int <= u <= '9' as int ==> HexValue(u) == Some(u - '0' as int)
    ensures 'a' as int <= u <= 'f' as int ==> HexValue(u) == Some(10 + u - 'a' as int)
    ensures 'A' as int <= u <= 'F' as int ==> HexValue(u) == Some(10 + u - 'A' as int)
  {
  }

  datatype StringRead = NoString | StringRead(s: JsString, rest: JsString)

  function Prepend(u: Unit, r: StringRead): StringRead {
    if r.NoString? then r else StringRead([u] + r.s, r.rest)
  }

  /** Section 7 of RFC 8259, from just after the opening quotation mark. */
  function ReadString(t: JsString): (r: StringRead)
    ensures r.StringRead? ==> |r.rest| < |t|
  {
    if t == [] then NoString
    else if t[0] == 0x22 then StringRead([], t[1..])
    else if t[0] == 0x5C then
      if |t| >= 2 && ShortEscape(t[1]).Some? then Prepend(ShortEscape(t[1]).value, ReadString(t[2..]))
      else if |t| >= 6 && t[1] == 0x75 && FourDigits(t[2..6]).Some?
      then Prepend(FourDigits(t[2..6]).value, ReadString(t[6..]))
      else NoString
    else if t[0] < 0x20 then NoString
    else Prepend(t[0], ReadString(t[1..]))
  }

  lemma ReadsUnicodeEscape(u: Unit, t: JsString)
    ensures ReadString(UnicodeEscape(u) + t) == Prepend(u, ReadString(t))
  {
    var e := UnicodeEscape(u);
    UnicodeEscapeRoundTrip(u);
    assert (e + t)[2..6] == e[2..] && (e + t)[6..] == t;
  }

  lemma ReadsShortEscape(u: Unit, t: JsString)
    requires ShortEscape(u).Some?
    ensures ReadString([0x5C, u] + t) == Prepend(ShortEscape(u).value, ReadString(t))
  {
    assert ([0x5C, u] + t)[2..] == t;
  }

  lemma ReadsEscapedUnit(u: Unit, t: JsString)
    ensures ReadString(EscapeUnit(u) + t) == Prepend(u, ReadString(t))
  {
    var e := EscapeUnit(u);
    if |e| == 1 {
      hide EscapeUnit;
      assert (e + t)[1..] == t;
    } else if |e| == 2 {
      hide ReadString, UnicodeEscape;
      ReadsShortEscape(e[1], t);
      assert e == [0x5C, e[1]];
    } else {
      hide ReadString, UnicodeEscape;
      ReadsUnicodeEscape(u, t);
    }
  }

  lemma ReadsPair(u: Unit, v: Unit, t: JsString)
    requires IsHigh(u) && IsLow(v)
    ensures ReadString([u, v] + t) == Prepend(u, Prepend(v, ReadString(t)))
  {
    var all := [u, v] + t;
    assert all[1..] == [v] + t && all[1..][1..] == t;
  }

  lemma Joined(a: JsString, b: JsString, c: JsString)
    ensures (a + b) + c == a + (b + c)
  {
  }

  lemma {:induction false} ReadsEscaped(s: JsString, t: JsString)
    ensures ReadString(Escaped(s) + ([0x22] + t)) == StringRead(s, t)
  {
    var end := [0x22] + t;
    if s == [] {
      assert Escaped(s) + end == end && end[1..] == t;
    } else if IsHigh(s[0]) && |s| > 1 && IsLow(s[1]) {
      hide ReadString, EscapeUnit;
      ReadsEscaped(s[2..], t);
      ReadsPair(s[0], s[1], Escaped(s[2..]) + end);
      Joined([s[0], s[1]], Escaped(s[2..]), end);
      assert [s[0]] + ([s[1]] + s[2..]) == s;
    } else {
      hide ReadString, EscapeUnit;
      ReadsEscaped(s[1..], t);
      ReadsEscapedUnit(s[0], Escaped(s[1..]) + end);
      Joined(EscapeUnit(s[0]), Escaped(s[1..]), end);
      assert [s[0]] + s[1..] == s;
    }
  }

  // --- Which texts are strings -------------------------------------------------------

  /** One unit of a string as section 7 of RFC 8259 lets it be written: as itself, or escaped. */
  ghost predicate Spells(e: JsString, u: Unit) {
    || (e == [u] && u >= 0x20 && u != '"' as int && u != '\\' as int)
    || (|e| == 2 && e[0] == '\\' as int && ShortEscape(e[1]) == Some(u))
    || (|e| == 6 && e[0] == '\\' as int && e[1] == 'u' as int && FourDigits(e[2..]) == Some(u))
  }

  /** The inside of a string, unit by unit. */
  ghost predicate SpellsAll(pieces: seq<JsString>, s: JsString) {
    |pieces| == |s| && forall i | 0 <= i < |s| :: Spells(pieces[i], s[i])
  }

  ghost function Together(pieces: seq<JsString>): JsString {
    if pieces == [] then [] else pieces[0] + Together(pieces[1..])
  }

  lemma ReadsPiece(e: JsString, u: Unit, t: JsString)
    requires Spells(e, u)
    ensures ReadString(e + t) == Prepend(u, ReadString(t))
  {
    var all := e + t;
    assert all[|e|..] == t;
    if |e| == 6 {
      assert all[2..6] == e[2..];
    }
  }

  lemma {:induction false} SpelledIsRead(pieces: seq<JsString>, s: JsString, rest: JsString)
    requires SpellsAll(pieces, s)
    ensures ReadString(Together(pieces) + (['"' as int] + rest)) == StringRead(s, rest)
    decreases |s|
  {
    var end := ['"' as int] + rest;
    if s == [] {
      assert Together(pieces) + end == end && end[1..] == rest;
    } else {
      SpelledIsRead(pieces[1..], s[1..], rest);
      ReadsPiece(pieces[0], s[0], Together(pieces[1..]) + end);
      hide ReadString, Spells;
      Joined(pieces[0], Together(pieces[1..]), end);
      assert [s[0]] + s[1..] == s;
    }
  }

  lemma FirstPiece(t: JsString) returns (n: nat, u: Unit)
    requires ReadString(t).StringRead? && t[0] != 0x22
    ensures 1 <= n <= |t| && Spells(t[..n], u) && ReadString(t) == Prepend(u, ReadString(t[n..]))
  {
    n := if t[0] != 0x5C then 1 else if ShortEscape(t[1]).Some? then 2 else 6;
    u := if n == 1 then t[0] else if n == 2 then ShortEscape(t[1]).value else FourDigits(t[2..6]).value;
    hide FourDigits, ShortEscape;
    assert n == 6 ==> t[..n][2..] == t[2..6];
    assert n == 1 ==> t[..n] == [u];
  }

  lemma PieceInFront(e: JsString, u: Unit, more: seq<JsString>, s: JsString)
    requires Spells(e, u) && SpellsAll(more, s)
    ensures SpellsAll([e] + more, [u] + s) && Together([e] + more) == e + Together(more)
  {
    hide Spells;
    assert ([e] + more)[1..] == more;
  }

  lemma {:induction false} ReadIsSpelled(t: JsString) returns (pieces: seq<JsString>)
    requires ReadString(t).StringRead?
    ensures SpellsAll(pieces, ReadString(t).s) && t == Together(pieces) + (['"' as int] + ReadString(t).rest)
    decreases |t|
  {
    if t[0] == 0x22 {
      pieces := [];
      assert t == [0x22] + t[1..];
    } else {
      var n, u := FirstPiece(t);
      hide ReadString, Spells, SpellsAll, Together;
      var more := ReadIsSpelled(t[n..]);
      pieces := [t[..n]] + more;
      PieceInFront(t[..n], u, more, ReadString(t[n..]).s);
      Joined(t[..n], Together(more), ['"' as int] + ReadString(t[n..]).rest);
      assert t == t[..n] + t[n..];
    }
  }

  /** What is read as a string is what can be spelled so, up to the closing quotation mark. */
  lemma StringsAreThese(t: JsString, s: JsString, rest: JsString)
    ensures ReadString(t) == StringRead(s, rest) <==>
      exists pieces :: SpellsAll(pieces, s) && t == Together(pieces) + (['"' as int] + rest)
  {
    if ReadString(t) == StringRead(s, rest) {
      var pieces := ReadIsSpelled(t);
    }
    if pieces :| SpellsAll(pieces, s) && t == Together(pieces) + (['"' as int] + rest) {
      SpelledIsRead(pieces, s, rest);
    }
  }

  // --- Texts -------------------------------------------------------------------------

  const COMMA: Unit := 0x2C
  const COLON: Unit := 0x3A

  /** What `JSON.stringify` writes for a value. */
  function Print(v: Value): JsString {
    match v
    case Null => Ascii("null")
    case Flag(on) => if on then Ascii("true") else Ascii("false")
    case Number(lexeme) => lexeme
    case Text(s) => Quoted(s)
    case Array(items) => [0x5B] + PrintItems(items, 0x5D)
    case Object(members) => [0x7B] + PrintMembers(members, 0x7D)
  }

  function PrintItems(items: Items, end: Unit): JsString {
    match items
    case NoItems => [end]
    case Items(first, others) => Print(first) + (if others.NoItems? then [end] else [COMMA] + PrintItems(others, end))
  }

  function PrintMembers(members: Members, end: Unit): JsString {
    match members
    case NoMembers => [end]
    case Members(key, value, others) =>
      Quoted(key) + [COLON] + Print(value) + (if others.NoMembers? then [end] else [COMMA] + PrintMembers(others, end))
  }

  /** How `JSON.stringify` puts values together. */
  lemma PrintsLikeStringify(a: Value, b: Value, k: JsString, l: JsString)
    ensures Print(Null) == Ascii("null") && Print(Flag(true)) == Ascii("true") && Print(Flag(false)) == Ascii("false")
    ensures Print(Number(k)) == k && Print(Text(k)) == ['"' as int] + (Escaped(k) + ['"' as int])
    ensures Print(Array(NoItems)) == ['[' as int, ']' as int] && Print(Object(NoMembers)) == ['{' as int, '}' as int]
    ensures Print(Array(Items(a, Items(b, NoItems)))) == ['[' as int] + (Print(a) + ([',' as int] + (Print(b) + [']' as int])))
    ensures Print(Object(Members(k, a, Members(l, b, NoMembers)))) ==
      ['{' as int] + (Quoted(k) + [':' as int] + Print(a) + ([',' as int] + (Quoted(l) + [':' as int] + Print(b) + ['}' as int])))
  {
    hide Escaped, Ascii;
    assert PrintItems(Items(b, NoItems), 0x5D) == Print(b) + [']' as int];
    assert PrintMembers(Members(l, b, NoMembers), 0x7D) == Quoted(l) + [':' as int] + Print(b) + ['}' as int];
  }

  /** What is escaped by one letter, and what stays as it is. */
  lemma EscapesAreThese(u: Unit)
    ensures EscapeUnit(u) == [u] <==> u >= 0x20 && u != '"' as int && u != '\\' as int && !(0xD800 <= u <= 0xDFFF)
    ensures EscapeUnit('"' as int) == ['\\' as int, '"' as int] && EscapeUnit('\\' as int) == ['\\' as int, '\\' as int]
    ensures EscapeUnit('\n' as int) == ['\\' as int, 'n' as int] && EscapeUnit('\r' as int) == ['\\' as int, 'r' as int]
    ensures EscapeUnit('\t' as int) == ['\\' as int, 't' as int]
    ensures EscapeUnit(0x08) == ['\\' as int, 'b' as int] && EscapeUnit(0x0C) == ['\\' as int, 'f' as int]
    ensures (u < 0x20 && !(0x08 <= u <= 0x0D && u != 0x0B)) || 0xD800 <= u <= 0xDFFF ==> EscapeUnit(u) == UnicodeEscape(u)
  {
    hide UnicodeEscape;
  }

  /** The escape of any unit: four hexadecimal digits, the highest first. */
  lemma UnicodeEscapesAreThese(u: Unit)
    ensures UnicodeEscape(u)[..2] == ['\\' as int, 'u' as int]
    ensures UnicodeEscape(u)[2] == "0123456789abcdef"[u / 4096] as int
    ensures UnicodeEscape(u)[3] == "0123456789abcdef"[u / 256 % 16] as int
    ensures UnicodeEscape(u)[4] == "0123456789abcdef"[u / 16 % 16] as int
    ensures UnicodeEscape(u)[5] == "0123456789abcdef"[u % 16] as int
  {
    HexDigitsAreThese(u / 4096);
    HexDigitsAreThese(u / 256 % 16);
    HexDigitsAreThese(u / 16 % 16);
    HexDigitsAreThese(u % 16);
    hide HexDigit;
  }

  lemma HexDigitsAreThese(n: nat)
    requires n < 16
    ensures HexDigit(n) == "0123456789abcdef"[n] as int
  {
    var digits := "0123456789abcdef";
    assert n < 10 ==> digits[n] as int == 0x30 + n;
    assert n >= 10 ==> digits[n] as int == 0x57 + n;
  }

  predicate IsBlank(u: Unit) {
    u == 0x20 || u == 0x09 || u == 0x0A || u == 0x0D
  }

  lemma BlanksAreThese(u: Unit)
    ensures IsBlank(u) <==> u in [' ' as int, '\t' as int, '\n' as int, '\r' as int]
  {
  }

  function Skip(t: JsString): (rest: JsString)
    ensures |rest| <= |t|
    ensures rest != [] ==> !IsBlank(rest[0])
  {
    if t != [] && IsBlank(t[0]) then Skip(t[1..]) else t
  }

  /** The longest start of the text that a number may be made of. */
  function NumberRun(t: JsString): (n: nat)
    ensures n <= |t|
  {
    if t != [] && InNumber(t[0]) then 1 + NumberRun(t[1..]) else 0
  }

  datatype Read<T> = Failed | Read(value: T, rest: JsString)

  predicate Starts(t: JsString, word: JsString) {
    word <= t
  }

  /** A value, blanks before it included. */
  function ReadValue(t: JsString): (r: Read<Value>)
    ensures r.Read? ==> |r.rest| < |t|
    decreases |t|, 2
  {
    var u := Skip(t);
    if u == [] then Failed
    else if u[0] == 0x22 then
      var r := ReadString(u[1..]);
      if r.NoString? then Failed else Read(Text(r.s), r.rest)
    else if u[0] == 0x5B then
      var v := Skip(u[1..]);
      if v != [] && v[0] == 0x5D then Read(Array(NoItems), v[1..])
      else
        var r := ReadItems(u[1..]);
        if r.Failed? then Failed else Read(Array(r.value), r.rest)
    else if u[0] == 0x7B then
      var v := Skip(u[1..]);
      if v != [] && v[0] == 0x7D then Read(Object(NoMembers), v[1..])
      else
        var r := ReadMembers(u[1..]);
        if r.Failed? then Failed else Read(Object(r.value), r.rest)
    else if Starts(u, Ascii("null")) then Read(Null, u[4..])
    else if Starts(u, Ascii("true")) then Read(Flag(true), u[4..])
    else if Starts(u, Ascii("false")) then Read(Flag(false), u[5..])
    else
      var n := NumberRun(u);
      if IsNumber(u[..n]) then Read(Number(u[..n]), u[n..]) else Failed
  }

  /** One or more values, a comma between them, and the closing bracket. */
  function ReadItems(t: JsString): (r: Read<Items>)
    ensures r.Read? ==> |r.rest| < |t|
    decreases |t|, 3
  {
    var first := ReadValue(t);
    if first.Failed? then Failed
    else
      var u := Skip(first.rest);
      if u != [] && u[0] == 0x5D then Read(Items(first.value, NoItems), u[1..])
      else if u != [] && u[0] == COMMA then
        var r := ReadItems(u[1..]);
        if r.Failed? then Failed else Read(Items(first.value, r.value), r.rest)
      else Failed
  }

  function ReadMembers(t: JsString): (r: Read<Members>)
    ensures r.Read? ==> |r.rest| < |t|
    decreases |t|, 3
  {
    var k := Skip(t);
    if k == [] || k[0] != 0x22 || ReadString(k[1..]).NoString? then Failed
    else
      var key := ReadString(k[1..]);
      var c := Skip(key.rest);
      if c == [] || c[0] != COLON || ReadValue(c[1..]).Failed? then Failed
      else
        var first := ReadValue(c[1..]);
        var u := Skip(first.rest);
        if u != [] && u[0] == 0x7D then Read(Members(key.s, first.value, NoMembers), u[1..])
        else if u != [] && u[0] == COMMA then
          var r := ReadMembers(u[1..]);
          if r.Failed? then Failed else Read(Members(key.s, first.value, r.value), r.rest)
        else Failed
  }

  function Parse(t: JsString): Option<Value> {
    var r := ReadValue(t);
    if r.Read? && Skip(r.rest) == [] then Some(r.value) else None
  }

  // --- Reading back what was printed -----------------------------------------------------

  /** What may follow a value without running into it. */
  ghost predicate Apart(rest: JsString) {
    rest == [] || !InNumber(rest[0])
  }

  lemma {:induction false} RunOfLexeme(lexeme: JsString, rest: JsString)
    requires (forall i | 0 <= i < |lexeme| :: InNumber(lexeme[i])) && Apart(rest)
    ensures NumberRun(lexeme + rest) == |lexeme|
  {
    if lexeme == [] {
      assert lexeme + rest == rest;
    } else {
      assert (lexeme + rest)[1..] == lexeme[1..] + rest;
      RunOfLexeme(lexeme[1..], rest);
    }
  }

  lemma ReadsNumber(lexeme: JsString, rest: JsString)
    requires IsNumber(lexeme) && Apart(rest)
    ensures ReadValue(lexeme + rest) == Read(Number(lexeme), rest)
  {
    var t := lexeme + rest;
    RunOfLexeme(lexeme, rest);
    assert t[0] == lexeme[0] && InNumber(t[0]);
    assert Skip(t) == t;
    assert t[..|lexeme|] == lexeme && t[|lexeme|..] == rest;
    assert Ascii("null")[0] == 'n' as int && Ascii("true")[0] == 't' as int && Ascii("false")[0] == 'f' as int;
  }

  lemma ReadsText(s: JsString, rest: JsString)
    ensures ReadValue(Quoted(s) + rest) == Read(Text(s), rest)
    ensures var t := Quoted(s) + rest; t[0] == 0x22 && Skip(t) == t && ReadString(t[1..]) == StringRead(s, rest)
  {
    var inside := Escaped(s) + ([0x22] + rest);
    ReadsEscaped(s, rest);
    hide Escaped, ReadString, Skip, ReadItems, ReadMembers, NumberRun, IsNumber;
    Joined([0x22], Escaped(s) + [0x22], rest);
    Joined(Escaped(s), [0x22], rest);
    SkipNothing(0x22, inside);
  }

  lemma ReadsWord(v: Value, rest: JsString)
    requires v.Null? || v.Flag?
    ensures ReadValue(Print(v) + rest) == Read(v, rest)
  {
    var word := Print(v);
    var t := word + rest;
    assert t[0] == word[0] && Skip(t) == t;
    assert t[|word|..] == rest && t[..|word|] == word;
    assert Ascii("null")[0] == 'n' as int && Ascii("true")[0] == 't' as int && Ascii("false")[0] == 'f' as int;
    if Starts(t, Ascii("null")) { assert t[0] == Ascii("null")[0]; }
    if Starts(t, Ascii("true")) { assert t[0] == Ascii("true")[0]; }
  }

  lemma SkipNothing(u: Unit, t: JsString)
    requires !IsBlank(u)
    ensures Skip([u] + t) == [u] + t && ([u] + t)[0] == u && ([u] + t)[1..] == t
  {
  }

  lemma {:induction false} ReadsPrinted(v: Value, rest: JsString)
    requires Sound(v) && Apart(rest)
    ensures ReadValue(Print(v) + rest) == Read(v, rest)
    decreases v, 1
  {
    hide ReadValue, Apart, Print, IsNumber;
    match v {
      case Number(lexeme) => ReadsNumber(lexeme, rest); PrintsLexeme(v);
      case Text(s) => ReadsText(s, rest); PrintsText(v);
      case Array(items) => ReadsArray(items, rest);
      case Object(members) => ReadsObject(members, rest);
      case _ => ReadsWord(v, rest);
    }
  }

  lemma PrintsLexeme(v: Value)
    requires v.Number?
    ensures Print(v) == v.lexeme
  {
  }

  lemma PrintsText(v: Value)
    requires v.Text?
    ensures Print(v) == Quoted(v.s)
  {
  }

  lemma {:induction false} PrintStarts(v: Value)
    requires Sound(v)
    ensures Print(v) != [] && !IsBlank(Print(v)[0]) && Print(v)[0] != 0x5D
  {
    hide AfterWhole, AfterDigits, Escaped, PrintItems, PrintMembers;
    if v.Number? {
      assert InNumber(v.lexeme[0]);
    }
  }

  lemma {:induction false} ReadsArray(items: Items, rest: JsString)
    requires ItemsSound(items)
    ensures ReadValue(Print(Array(items)) + rest) == Read(Array(items), rest)
    decreases items, 2
  {
    var inside := PrintItems(items, 0x5D) + rest;
    assert Print(Array(items)) + rest == [0x5B] + inside;
    SkipNothing(0x5B, inside);
    if items.NoItems? {
      SkipNothing(0x5D, rest);
      assert inside == [0x5D] + rest;
    } else {
      ReadsItems(items, rest);
      PrintStarts(items.first);
      hide IsNumber, NumberRun, ReadString, ReadMembers, ReadItems, Ascii, Print;
      assert inside[0] == Print(items.first)[0] && Skip(inside) == inside;
    }
  }

  lemma {:induction false} ReadsObject(members: Members, rest: JsString)
    requires MembersSound(members)
    ensures ReadValue(Print(Object(members)) + rest) == Read(Object(members), rest)
    decreases members, 2
  {
    var inside := PrintMembers(members, 0x7D) + rest;
    assert Print(Object(members)) + rest == [0x7B] + inside;
    SkipNothing(0x7B, inside);
    if members.NoMembers? {
      SkipNothing(0x7D, rest);
      assert inside == [0x7D] + rest;
    } else {
      ReadsMembers(members, rest);
      assert inside[0] == 0x22 && Skip(inside) == inside;
    }
  }

  lemma {:induction false} ReadsItems(items: Items, rest: JsString)
    requires items.Items? && ItemsSound(items)
    ensures ReadItems(PrintItems(items, 0x5D) + rest) == Read(items, rest)
    decreases items, 1
  {
    hide ReadValue, Print, IsNumber, Skip;
    var others := items.others;
    if others.NoItems? {
      var after := [0x5D] + rest;
      SkipNothing(0x5D, rest);
      ReadsPrinted(items.first, after);
      assert PrintItems(items, 0x5D) + rest == Print(items.first) + after;
    } else {
      var next := PrintItems(others, 0x5D) + rest;
      var after := [COMMA] + next;
      SkipNothing(COMMA, next);
      ReadsPrinted(items.first, after);
      ReadsItems(others, rest);
      assert PrintItems(items, 0x5D) + rest == Print(items.first) + after;
    }
  }

  /** A key, its colon and its value, whatever follows the value. */
  lemma {:induction false} ReadsMember(key: JsString, value: Value, after: JsString)
    requires Sound(value) && Apart(after)
    ensures var t := Quoted(key) + ([COLON] + (Print(value) + after));
      && t[0] == 0x22 && Skip(t) == t
      && ReadString(t[1..]) == StringRead(key, [COLON] + (Print(value) + after))
      && Skip([COLON] + (Print(value) + after)) == [COLON] + (Print(value) + after)
      && ReadValue(([COLON] + (Print(value) + after))[1..]) == Read(value, after)
    decreases value, 2
  {
    hide ReadValue, Print, IsNumber, Escaped, ReadString;
    ReadsText(key, [COLON] + (Print(value) + after));
    SkipNothing(COLON, Print(value) + after);
    ReadsPrinted(value, after);
  }

  lemma {:induction false} ReadsMembers(members: Members, rest: JsString)
    requires members.Members? && MembersSound(members)
    ensures ReadMembers(PrintMembers(members, 0x7D) + rest) == Read(members, rest)
    decreases members, 1
  {
    var others := members.others;
    var next := PrintMembers(others, 0x7D) + rest;
    var after := if others.NoMembers? then [0x7D] + rest else [COMMA] + next;
    assert PrintMembers(members, 0x7D) + rest == Quoted(members.key) + ([COLON] + (Print(members.value) + after));
    hide ReadValue, Print, PrintMembers, IsNumber, Escaped, Quoted, ReadString, Skip;
    ReadsMember(members.key, members.value, after);
    if others.NoMembers? {
      SkipNothing(0x7D, rest);
    } else {
      SkipNothing(COMMA, next);
      ReadsMembers(others, rest);
    }
  }

  /** Only blanks may follow a value. */
  lemma OnlyBlanksFollow(v: Value, rest: JsString)
    requires Sound(v) && Apart(rest)
    ensures Parse(Print(v) + rest) == if forall u | u in rest :: IsBlank(u) then Some(v) else None
  {
    ReadsPrinted(v, rest);
    SkipsBlanks(rest);
    hide ReadValue, Print, Apart, Skip, IsBlank;
  }

  lemma {:induction false} SkipsBlanks(t: JsString)
    ensures Skip(t) == [] <==> forall u | u in t :: IsBlank(u)
  {
    if t != [] {
      SkipsBlanks(t[1..]);
      assert t == [t[0]] + t[1..];
    }
  }

  /** Reading gives back what was written, for every value and every string in it. */
  lemma ParsePrint(v: Value)
    requires Sound(v)
    ensures Parse(Print(v)) == Some(v)
  {
    ReadsPrinted(v, []);
    assert Print(v) + [] == Print(v);
  }
}
