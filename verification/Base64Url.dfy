/** The unpadded base64url of section 5 of RFC 4648. */
module Base64Url {
  import opened Options
  import opened Units

  type Byte = b: nat | b < 256

  function Letter(n: nat): (u: Unit)
    requires n < 64
    ensures u != 0x2E && u < 0x80
  {
    if n < 26 then 0x41 + n
    else if n < 52 then 0x61 + n - 26
    else if n < 62 then 0x30 + n - 52
    else if n == 62 then 0x2D else 0x5F
  }

  function LetterValue(u: Unit): (n: Option<nat>)
    ensures n.Some? ==> n.value < 64
  {
    if 0x41 <= u <= 0x5A then Some(u - 0x41)
    else if 0x61 <= u <= 0x7A then Some(u - 0x61 + 26)
    else if 0x30 <= u <= 0x39 then Some(u - 0x30 + 52)
    else if u == 0x2D then Some(62)
    else if u == 0x5F then Some(63)
    else None
  }

  lemma LetterRoundTrip(n: nat)
    requires n < 64
    ensures LetterValue(Letter(n)) == Some(n)
  {
  }

  /** Groups of three bytes become four letters; a tail of one or two becomes two or three. */
  function Encode(b: seq<Byte>): (t: JsString)
    ensures forall i | 0 <= i < |t| :: t[i] != 0x2E && t[i] < 0x80
  {
    if b == [] then []
    else if |b| == 1 then [Letter(b[0] / 4), Letter(b[0] % 4 * 16)]
    else if |b| == 2 then [Letter(b[0] / 4), Letter(b[0] % 4 * 16 + b[1] / 16), Letter(b[1] % 16 * 4)]
    else
      [Letter(b[0] / 4), Letter(b[0] % 4 * 16 + b[1] / 16), Letter(b[1] % 16 * 4 + b[2] / 64), Letter(b[2] % 64)]
      + Encode(b[3..])
  }

  function First(x: nat, y: nat): Byte
    requires x < 64 && y < 64
  {
    x * 4 + y / 16
  }

  function Second(y: nat, z: nat): Byte
    requires y < 64 && z < 64
  {
    y % 16 * 16 + z / 4
  }

  function Third(z: nat, w: nat): Byte
    requires z < 64 && w < 64
  {
    z % 4 * 64 + w
  }

  function Decode(t: JsString): Option<seq<Byte>> {
    if t == [] then Some([])
    else if |t| == 1 then None
    else
      var x, y := LetterValue(t[0]), LetterValue(t[1]);
      if x.None? || y.None? then None
      else if |t| == 2 then Some([First(x.value, y.value)])
      else
        var z := LetterValue(t[2]);
        if z.None? then None
        else if |t| == 3 then Some([First(x.value, y.value), Second(y.value, z.value)])
        else
          var w, rest := LetterValue(t[3]), Decode(t[4..]);
          if w.None? || rest.None? then None
          else Some([First(x.value, y.value), Second(y.value, z.value), Third(z.value, w.value)] + rest.value)
  }

  lemma Bits(a: Byte, b: Byte, c: Byte)
    ensures First(a / 4, a % 4 * 16 + b / 16) == a
    ensures Second(a % 4 * 16 + b / 16, b % 16 * 4 + c / 64) == b
    ensures Third(b % 16 * 4 + c / 64, c % 64) == c
  {
  }

  lemma DecodesGroup(a: Byte, b: Byte, c: Byte, t: JsString)
    ensures var group := [Letter(a / 4), Letter(a % 4 * 16 + b / 16), Letter(b % 16 * 4 + c / 64), Letter(c % 64)];
      Decode(group + t) == if Decode(t).None? then None else Some([a, b, c] + Decode(t).value)
  {
    var x, y, z, w := a / 4, a % 4 * 16 + b / 16, b % 16 * 4 + c / 64, c % 64;
    Bits(a, b, c);
    LetterRoundTrip(x);
    LetterRoundTrip(y);
    LetterRoundTrip(z);
    LetterRoundTrip(w);
    hide Letter, LetterValue, First, Second, Third;
    var all := [Letter(x), Letter(y), Letter(z), Letter(w)] + t;
    assert all[4..] == t;
  }

  lemma DecodesTails(a: Byte, b: Byte)
    ensures Decode([Letter(a / 4), Letter(a % 4 * 16)]) == Some([a])
    ensures Decode([Letter(a / 4), Letter(a % 4 * 16 + b / 16), Letter(b % 16 * 4)]) == Some([a, b])
  {
    Bits(a, b, 0);
    Bits(a, 0, 0);
    LetterRoundTrip(a / 4);
    LetterRoundTrip(a % 4 * 16);
    LetterRoundTrip(a % 4 * 16 + b / 16);
    LetterRoundTrip(b % 16 * 4);
    hide Letter, LetterValue, First, Second, Third;
  }

  /** Table 2 of RFC 4648. */
  lemma LettersAreThese(n: nat)
    requires n < 64
    ensures n < 26 ==> Letter(n) == "ABCDEFGHIJKLMNOPQRSTUVWXYZ"[n] as int
    ensures 26 <= n < 52 ==> Letter(n) == "abcdefghijklmnopqrstuvwxyz"[n - 26] as int
    ensures 52 <= n < 62 ==> Letter(n) == "0123456789"[n - 52] as int
    ensures 62 <= n ==> Letter(n) == "-_"[n - 62] as int
  {
  }

  /** A group is the same number to the base of 256 and to the base of 64, and nothing is padded. */
  lemma {:induction false} GroupsAreNumbers(b: seq<Byte>)
    ensures |Encode(b)| == (4 * |b| + 2) / 3
    ensures |b| >= 3 ==> SameNumber(b[0] as int, b[1] as int, b[2] as int, Encode(b)[..4]) && Encode(b)[4..] == Encode(b[3..])
    ensures |b| == 2 ==> Encode(b) == Encode(b + [0])[..3]
    ensures |b| == 1 ==> Encode(b) == Encode(b + [0, 0])[..2]
  {
    hide Letter, SameNumber;
    if |b| >= 3 {
      GroupsAreNumbers(b[3..]);
      SameBits(b[0], b[1], b[2]);
      var group := [Letter(b[0] / 4), Letter(b[0] % 4 * 16 + b[1] / 16), Letter(b[1] % 16 * 4 + b[2] / 64), Letter(b[2] % 64)];
      assert Encode(b)[..4] == group && Encode(b)[4..] == Encode(b[3..]);
    } else if |b| == 2 {
      assert (b + [0])[3..] == [];
    } else if |b| == 1 {
      assert (b + [0, 0])[3..] == [];
    }
  }

  ghost predicate SameNumber(a: int, b: int, c: int, letters: JsString) {
    exists x: nat, y: nat, z: nat, w: nat | x < 64 && y < 64 && z < 64 && w < 64 ::
      letters == [Letter(x), Letter(y), Letter(z), Letter(w)] && ((x * 64 + y) * 64 + z) * 64 + w == (a * 256 + b) * 256 + c
  }

  lemma SameBits(a: int, b: int, c: int)
    requires 0 <= a < 256 && 0 <= b < 256 && 0 <= c < 256
    ensures SameNumber(a, b, c, [Letter(a / 4), Letter(a % 4 * 16 + b / 16), Letter(b % 16 * 4 + c / 64), Letter(c % 64)])
  {
    var x: nat, y: nat, z: nat, w: nat := a / 4, a % 4 * 16 + b / 16, b % 16 * 4 + c / 64, c % 64;
    hide Letter;
    assert ((x * 64 + y) * 64 + z) * 64 + w == (a * 256 + b) * 256 + c;
    assert [Letter(a / 4), Letter(a % 4 * 16 + b / 16), Letter(b % 16 * 4 + c / 64), Letter(c % 64)] == [Letter(x), Letter(y), Letter(z), Letter(w)];
  }

  lemma LetterOfValue(u: Unit)
    ensures LetterValue(u).Some? ==> Letter(LetterValue(u).value) == u
    ensures LetterValue(u).Some? <==> exists n: nat :: n < 64 && Letter(n) == u
  {
    if LetterValue(u).Some? {
      assert LetterValue(u).value < 64 && Letter(LetterValue(u).value) == u;
    }
    if n: nat :| n < 64 && Letter(n) == u {
      LetterRoundTrip(n);
    }
  }

  lemma BitsBack(x: nat, y: nat, z: nat, w: nat)
    requires x < 64 && y < 64 && z < 64 && w < 64
    ensures var a, b, c := First(x, y), Second(y, z), Third(z, w);
      a / 4 == x && a % 4 * 16 + b / 16 == y && b % 16 * 4 + c / 64 == z && c % 64 == w
  {
    assert First(x, y) / 4 == x && First(x, y) % 4 == y / 16;
    assert Second(y, z) / 16 == y % 16 && Second(y, z) % 16 == z / 4;
    assert Third(z, w) / 64 == z % 4 && Third(z, w) % 64 == w;
  }

  lemma EncodesGroup(a: Byte, b: Byte, c: Byte, rest: seq<Byte>)
    ensures Encode([a, b, c] + rest) ==
      [Letter(a / 4), Letter(a % 4 * 16 + b / 16), Letter(b % 16 * 4 + c / 64), Letter(c % 64)] + Encode(rest)
    ensures Encode([a, b]) == [Letter(a / 4), Letter(a % 4 * 16 + b / 16), Letter(b % 16 * 4)]
    ensures Encode([a]) == [Letter(a / 4), Letter(a % 4 * 16)]
  {
    hide Letter;
    var all := [a, b, c] + rest;
    assert all[3..] == rest;
  }

  lemma WritesGroup(x: nat, y: nat, z: nat, w: nat, rest: seq<Byte>)
    requires x < 64 && y < 64 && z < 64 && w < 64
    ensures Encode([First(x, y), Second(y, z), Third(z, w)] + rest) == [Letter(x), Letter(y), Letter(z), Letter(w)] + Encode(rest)
    ensures Encode([First(x, y), Second(y, z)])[..2] == [Letter(x), Letter(y)] && |Encode([First(x, y), Second(y, z)])| == 3
    ensures Encode([First(x, y)])[..1] == [Letter(x)] && |Encode([First(x, y)])| == 2
  {
    BitsBack(x, y, z, w);
    EncodesGroup(First(x, y), Second(y, z), Third(z, w), rest);
    hide First, Second, Third, Letter, Encode;
  }

  /**
   What is read: letters of the table only, and as many as groups and a tail have. Written
   again it is the same, apart from spare bits in the last letter of a tail.
   */
  lemma {:induction false} EncodeDecode(t: JsString)
    ensures Decode(t).Some? <==> |t| % 4 != 1 && forall i | 0 <= i < |t| :: LetterValue(t[i]).Some?
    ensures Decode(t).Some? ==> Alike(Encode(Decode(t).value), t)
    decreases |t|
  {
    hide Letter, LetterValue, First, Second, Third, Encode;
    if |t| >= 4 {
      EncodeDecode(t[4..]);
      assert forall i | 4 <= i < |t| :: t[i] == t[4..][i - 4];
      if Decode(t).Some? {
        var x, y, z, w := LetterValue(t[0]).value, LetterValue(t[1]).value, LetterValue(t[2]).value, LetterValue(t[3]).value;
        LettersBack(t, 4);
        WritesGroup(x, y, z, w, Decode(t[4..]).value);
      }
    } else if Decode(t).Some? {
      LettersBack(t, |t|);
      if |t| == 0 {
        assert Encode([]) == [] by { EncodesNothing(); }
      } else {
        var x, y, z := LetterValue(t[0]).value, LetterValue(t[1]).value, if |t| == 3 then LetterValue(t[2]).value else 0;
        WritesGroup(x, y, z, 0, []);
      }
    }
  }

  ghost predicate Alike(a: JsString, t: JsString) {
    |a| == |t| && forall i | 0 <= i < |t| && (i < |t| - 1 || |t| % 4 == 0) :: a[i] == t[i]
  }

  lemma EncodesNothing()
    ensures Encode([]) == []
  {
  }

  lemma LettersBack(t: JsString, n: nat)
    requires n <= |t| && forall i | 0 <= i < n :: LetterValue(t[i]).Some?
    ensures forall i | 0 <= i < n :: Letter(LetterValue(t[i]).value) == t[i]
  {
    forall i | 0 <= i < n ensures Letter(LetterValue(t[i]).value) == t[i] {
      LetterOfValue(t[i]);
    }
  }

  /** For every length, so for each of the three tails. */
  lemma {:induction false} DecodeEncode(b: seq<Byte>)
    ensures Decode(Encode(b)) == Some(b)
  {
    hide Decode, Letter;
    if b == [] {
      DecodesNothing();
    } else if |b| == 1 {
      DecodesTails(b[0], 0);
      assert b == [b[0]];
    } else if |b| == 2 {
      DecodesTails(b[0], b[1]);
      assert b == [b[0], b[1]];
    } else {
      DecodeEncode(b[3..]);
      DecodesGroup(b[0], b[1], b[2], Encode(b[3..]));
      assert [b[0], b[1], b[2]] + b[3..] == b;
    }
  }

  lemma DecodesNothing()
    ensures Decode([]) == Some([])
  {
  }
}
