/** The signed state of an authorization round: `signState` and `verifyState`. */
module StateCodec {
  import opened Options
  import opened Json
  import opened Units
  import Base64Url
  import Decimal
  import Text
  import Utf8

  const STATE_TTL_MS := 600_000
  const DOT: Unit := 0x2E

  // Below this, every whole number is a double.
  const WHOLE_NUMBERS := 0x20_0000_0000_0000

  /**
   What the platform supplies: the keyed digest of a payload, the text that decoding a
   payload gives, however leniently, and the number a lexeme stands for.
   */
  datatype Platform = Platform(
    hmac: JsString -> seq<Base64Url.Byte>, text: JsString -> JsString, number: JsString -> real)

  /** Nothing is assumed of the digest. Proper base64url of proper UTF-8 is decoded as such, and digits are read as such as far as doubles go. */
  ghost predicate Faithful(e: Platform) {
    && (forall payload: JsString :: Decoded(payload).Some? ==> e.text(payload) == Decoded(payload).value)
    && (forall lexeme: JsString :: IsNumber(lexeme) && WholeValue(lexeme).Some? && WholeValue(lexeme).value < WHOLE_NUMBERS ==>
         e.number(lexeme) == WholeValue(lexeme).value as real)
  }

  /** The text of a payload that is proper base64url of proper UTF-8. */
  function Decoded(payload: JsString): Option<JsString> {
    var bytes := Base64Url.Decode(payload);
    if bytes.None? then None else Utf8.Decode(bytes.value)
  }

  /** A whole number as it is written. */
  function Whole(n: nat): JsString {
    Ascii(Decimal.Numeral(n))
  }

  function Payload(shopId: JsString, exp: nat): Value {
    Object(Members(Ascii("shopId"), Text(shopId), Members(Ascii("exp"), Number(Whole(exp)), NoMembers)))
  }

  function Signature(e: Platform, payload: JsString): JsString {
    Base64Url.Encode(e.hmac(payload))
  }

  function SignState(e: Platform, shopId: JsString, now: nat): JsString {
    var payload := Base64Url.Encode(Utf8.Encode(Print(Payload(shopId, now + STATE_TTL_MS))));
    payload + [DOT] + Signature(e, payload)
  }

  /** A property of a parsed object: the last member of that name. */
  function Property(members: Members, key: JsString): Option<Value> {
    match members
    case NoMembers => None
    case Members(k, v, others) =>
      var later := Property(others, key);
      if later.Some? then later else if k == key then Some(v) else None
  }

  function Digits(lexeme: JsString): (s: string)
    requires forall i | 0 <= i < |lexeme| :: IsDigit(lexeme[i])
    ensures |s| == |lexeme| && forall i | 0 <= i < |s| :: s[i] as int == lexeme[i] && Decimal.IsDigit(s[i])
  {
    if lexeme == [] then ""
    else
      assert IsDigit(lexeme[0]);
      [Decimal.DigitOf(lexeme[0] - 0x30)] + Digits(lexeme[1..])
  }

  /** The value of a lexeme that is all digits. */
  function WholeValue(lexeme: JsString): Option<nat> {
    if forall i | 0 <= i < |lexeme| :: IsDigit(lexeme[i]) then Some(Decimal.Value(Digits(lexeme))) else None
  }

  /** The shop and the expiry inside a payload, when both are there and of the right kind. */
  function Opened(e: Platform, payload: JsString): Option<(JsString, real)> {
    var parsed := Parse(e.text(payload));
    if parsed.None? || !parsed.value.Object? then None
    else
      var shopId := Property(parsed.value.members, Ascii("shopId"));
      var exp := Property(parsed.value.members, Ascii("exp"));
      if shopId.None? || !shopId.value.Text? || exp.None? || !exp.value.Number? then None
      else Some((shopId.value.s, e.number(exp.value.lexeme)))
  }

  function VerifyState(e: Platform, state: JsString, now: nat): Option<JsString> {
    var parts := Text.Split(state, DOT);
    if |parts| != 2 then None
    else
      var payload, sig := parts[0], parts[1];
      if Utf8.Encode(sig) != Utf8.Encode(Signature(e, payload)) then None
      else
        var found := Opened(e, payload);
        if found.None? || now as real > found.value.1 then None else Some(found.value.0)
  }

  // --- The parts of a signed state -----------------------------------------------------

  /** A signed state is the payload, a dot, and the digest of the payload; it lasts ten minutes. */
  lemma SignedIs(e: Platform, shopId: JsString, now: nat, payload: JsString)
    requires payload == Base64Url.Encode(Utf8.Encode(Print(Payload(shopId, now + 600_000))))
    ensures SignState(e, shopId, now) == payload + ['.' as int] + Base64Url.Encode(e.hmac(payload))
  {
    hide Base64Url.Encode, Utf8.Encode, Print, Payload;
    assert [DOT] == ['.' as int];
  }

  lemma TwoParts(e: Platform, shopId: JsString, now: nat)
    ensures var payload := Base64Url.Encode(Utf8.Encode(Print(Payload(shopId, now + STATE_TTL_MS))));
      Text.Split(SignState(e, shopId, now), DOT) == [payload, Signature(e, payload)]
  {
    var payload := Base64Url.Encode(Utf8.Encode(Print(Payload(shopId, now + STATE_TTL_MS))));
    var sig := Signature(e, payload);
    Text.SplitHead(payload, sig, DOT);
    Text.SplitNone(sig, DOT);
  }

  lemma {:induction false} AllDigitsRun(t: JsString)
    requires forall i | 0 <= i < |t| :: IsDigit(t[i])
    ensures AfterDigits(t) == []
  {
    if t != [] {
      AllDigitsRun(t[1..]);
    }
  }

  lemma {:induction false} NoLeadingZero(n: nat)
    ensures Decimal.Numeral(n)[0] == '0' ==> |Decimal.Numeral(n)| == 1
  {
    if n >= 10 {
      NoLeadingZero(n / 10);
      assert Decimal.Numeral(n)[0] == Decimal.Numeral(n / 10)[0];
    }
  }

  lemma DigitsOfWhole(n: nat)
    requires forall i | 0 <= i < |Whole(n)| :: IsDigit(Whole(n)[i])
    ensures Digits(Whole(n)) == Decimal.Numeral(n)
  {
    hide Decimal.Numeral, Digits;
    var s, d := Decimal.Numeral(n), Digits(Whole(n));
    forall i | 0 <= i < |s| ensures d[i] == s[i] {
      assert d[i] as int == s[i] as int;
    }
  }

  lemma DigitsAreNumber(t: JsString)
    requires t != [] && AfterDigits(t) == [] && (t[0] == 0x30 ==> t[1..] == [])
    requires forall i | 0 <= i < |t| :: IsDigit(t[i]) && InNumber(t[i])
    ensures IsNumber(t)
  {
    assert IsDigit(t[0]);
  }

  lemma WholeIsNumber(n: nat)
    ensures IsNumber(Whole(n))
    ensures WholeValue(Whole(n)) == Some(n)
  {
    var t := Whole(n);
    DigitsOfWhole(n);
    AllDigitsRun(t);
    Decimal.NumeralRoundTrip(n);
    hide Decimal.Numeral, Decimal.Value, Digits, Whole, AfterDigits, IsNumber;
    assert IsDigit(t[0]) && InNumber(t[0]) && t[0] != 0x2D;
    assert t[0] == 0x30 ==> t[1..] == [];
    DigitsAreNumber(t);
  }

  lemma PayloadIsSound(shopId: JsString, exp: nat)
    ensures Sound(Payload(shopId, exp))
  {
    WholeIsNumber(exp);
    hide Whole, Ascii, IsNumber;
    var last := Members(Ascii("exp"), Number(Whole(exp)), NoMembers);
    assert MembersSound(NoMembers) && Sound(Number(Whole(exp)));
    assert MembersSound(last) && Sound(Text(shopId));
    assert MembersSound(Members(Ascii("shopId"), Text(shopId), last));
  }

  lemma MarkIsPaired(u: Unit)
    requires !IsHigh(u) && !IsLow(u)
    ensures Utf8.Paired([u])
  {
    Utf8.PlainIsPaired([u]);
  }

  /** A key, its colon, a value and what follows. */
  lemma MemberIsPaired(key: JsString, value: JsString, after: JsString)
    requires Utf8.Paired(value) && Utf8.Paired(after)
    ensures Utf8.Paired(Quoted(key) + [COLON] + value + after)
  {
    Utf8.QuotedIsPaired(key);
    MarkIsPaired(COLON);
    hide Quoted, Utf8.Paired;
    Utf8.PairedJoins(Quoted(key), [COLON]);
    Utf8.PairedJoins(Quoted(key) + [COLON], value);
    Utf8.PairedJoins(Quoted(key) + [COLON] + value, after);
  }

  lemma PayloadIsPaired(shopId: JsString, exp: nat)
    ensures Utf8.Paired(Print(Payload(shopId, exp)))
  {
    PayloadText(shopId, exp);
    Utf8.PlainIsPaired(Whole(exp));
    Utf8.QuotedIsPaired(shopId);
    MarkIsPaired(0x7B);
    MarkIsPaired(0x7D);
    MarkIsPaired(COMMA);
    hide Quoted, Whole, Utf8.Paired, Ascii, Print, PrintMembers;
    var second := Quoted(Ascii("exp")) + [COLON] + Whole(exp) + [0x7D];
    MemberIsPaired(Ascii("exp"), Whole(exp), [0x7D]);
    Utf8.PairedJoins([COMMA], second);
    MemberIsPaired(Ascii("shopId"), Quoted(shopId), [COMMA] + second);
    Utf8.PairedJoins([0x7B], Quoted(Ascii("shopId")) + [COLON] + Quoted(shopId) + ([COMMA] + second));
  }

  /** The text that is signed: an object of two members, the id of the shop and the expiry in digits. */
  lemma PayloadText(shopId: JsString, exp: nat)
    ensures Print(Payload(shopId, exp)) ==
      ['{' as int] + (Quoted(Ascii("shopId")) + [':' as int] + Quoted(shopId)
        + ([',' as int] + (Quoted(Ascii("exp")) + [':' as int] + Whole(exp) + ['}' as int])))
  {
    hide Quoted, Whole, Ascii;
    var id, last := Ascii("shopId"), Members(Ascii("exp"), Number(Whole(exp)), NoMembers);
    assert Print(Number(Whole(exp))) == Whole(exp);
    assert PrintMembers(last, 0x7D) == Quoted(Ascii("exp")) + [COLON] + Whole(exp) + [0x7D];
    assert PrintMembers(Members(id, Text(shopId), last), 0x7D)
      == Quoted(id) + [COLON] + Quoted(shopId) + ([COMMA] + PrintMembers(last, 0x7D));
  }

  lemma OpensItsOwn(e: Platform, shopId: JsString, exp: nat)
    requires Faithful(e) && exp < 9_007_199_254_740_992
    ensures Opened(e, Base64Url.Encode(Utf8.Encode(Print(Payload(shopId, exp))))) == Some((shopId, exp as real))
  {
    var v := Payload(shopId, exp);
    PayloadIsSound(shopId, exp);
    PayloadIsPaired(shopId, exp);
    Base64Url.DecodeEncode(Utf8.Encode(Print(v)));
    Utf8.DecodeEncode(Print(v));
    ParsePrint(v);
    WholeIsNumber(exp);
    PropertiesOf(shopId, exp);
    assert Decoded(Base64Url.Encode(Utf8.Encode(Print(v)))) == Some(Print(v));
    assert e.number(Whole(exp)) == exp as real;
    hide Print, Parse, Utf8.Encode, Utf8.Decode, Base64Url.Encode, Base64Url.Decode, Whole, WholeValue, Property, Ascii;
  }

  lemma PropertiesOf(shopId: JsString, exp: nat)
    ensures Property(Payload(shopId, exp).members, Ascii("shopId")) == Some(Text(shopId))
    ensures Property(Payload(shopId, exp).members, Ascii("exp")) == Some(Number(Whole(exp)))
  {
    var id, key := Ascii("shopId"), Ascii("exp");
    assert |id| != |key|;
    hide Whole, Ascii;
    var last := Members(key, Number(Whole(exp)), NoMembers);
    assert Property(NoMembers, id) == None && Property(NoMembers, key) == None;
    assert Property(last, key) == Some(Number(Whole(exp)));
    assert Property(last, id) == None;
  }

  /** A signed state gives back its shop, whatever the id, exactly until it expires. */
  lemma VerifySigned(e: Platform, shopId: JsString, now: nat, later: nat)
    requires Faithful(e) && now + 600_000 < 9_007_199_254_740_992
    ensures VerifyState(e, SignState(e, shopId, now), later)
      == if later <= now + 600_000 then Some(shopId) else None
  {
    TwoParts(e, shopId, now);
    OpensItsOwn(e, shopId, now + STATE_TTL_MS);
    hide SignState, Opened, Print, Faithful, Base64Url.Encode, Utf8.Encode, Payload, Text.Split;
  }

  lemma {:induction false} AsciiBytes(t: JsString)
    requires forall i | 0 <= i < |t| :: t[i] < 0x80
    ensures Utf8.Encode(t) == t
  {
    if t != [] {
      AsciiBytes(t[1..]);
      assert [t[0]] + t[1..] == t;
    }
  }

  /** The bytes of a text are all below 0x80 only when the text is those bytes. */
  lemma {:induction false} AsciiOnly(t: JsString)
    requires forall i | 0 <= i < |Utf8.Encode(t)| :: Utf8.Encode(t)[i] < 0x80
    ensures Utf8.Encode(t) == t
  {
    if t != [] {
      var b := Utf8.Encode(t);
      assert b[0] < 0x80;
      assert b == [t[0]] + Utf8.Encode(t[1..]);
      assert forall i | 0 <= i < |Utf8.Encode(t[1..])| :: Utf8.Encode(t[1..])[i] == b[i + 1];
      AsciiOnly(t[1..]);
      assert [t[0]] + t[1..] == t;
    }
  }

  /** Such a platform exists, with any digest. */
  lemma SomePlatform(hmac: JsString -> seq<Base64Url.Byte>) returns (e: Platform)
    ensures Faithful(e) && e.hmac == hmac
  {
    e := Platform(hmac, (payload: JsString) => Decoded(payload).GetOr([]),
                  (lexeme: JsString) => WholeValue(lexeme).GetOr(0) as real);
    hide Decoded, WholeValue;
  }

  /** What is accepted is a payload followed by exactly its own signature, and it is the payload that names the shop. */
  lemma AcceptedOnlyIfSigned(e: Platform, state: JsString, now: nat) returns (payload: JsString)
    requires VerifyState(e, state, now).Some?
    ensures state == payload + ['.' as int] + Base64Url.Encode(e.hmac(payload))
    ensures Opened(e, payload).Some? && VerifyState(e, state, now) == Some(Opened(e, payload).value.0)
    ensures now as real <= Opened(e, payload).value.1
  {
    var parts := Text.Split(state, DOT);
    payload := parts[0];
    var sig := parts[1];
    AsciiBytes(Signature(e, payload));
    AsciiOnly(sig);
    Text.JoinSplit(state, DOT);
    assert parts == [payload, sig] && parts[1..] == [sig];
    assert Text.Join([payload, sig], [DOT]) == payload + [DOT] + sig;
  }
}
