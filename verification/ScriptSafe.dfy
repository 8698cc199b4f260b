/** `jsonForScript`: a JSON text made safe to stand inside a script element, with its meaning kept. */
module ScriptSafe {
  import opened Options
  import opened Json
  import opened Units

  /** `<`, `>`, `&` and the two line separators. */
  predicate Risky(u: Unit) {
    u == 0x3C || u == 0x3E || u == 0x26 || u == 0x2028 || u == 0x2029
  }

  function SafeUnit(u: Unit): (e: JsString)
    ensures e != []
    ensures forall i | 0 <= i < |e| :: !Risky(e[i])
  {
    if Risky(u) then UnicodeEscape(u) else [u]
  }

  /** Every risky unit replaced by its escape. */
  function Safe(t: JsString): (s: JsString)
    ensures forall i | 0 <= i < |s| :: !Risky(s[i])
    ensures t != [] ==> s != []
  {
    if t == [] then [] else SafeUnit(t[0]) + Safe(t[1..])
  }

  function JsonForScript(v: Value): JsString {
    Safe(Print(v))
  }

  lemma SafeHead(t: JsString)
    requires t != [] && !Risky(t[0])
    ensures Safe(t) == [t[0]] + Safe(t[1..])
    ensures Safe(t)[0] == t[0] && Safe(t)[1..] == Safe(t[1..])
  {
  }

  lemma {:induction false} SafePrefix(t: JsString, n: nat)
    requires n <= |t| && forall i | 0 <= i < n :: !Risky(t[i])
    ensures n <= |Safe(t)| && Safe(t)[..n] == t[..n] && Safe(t)[n..] == Safe(t[n..])
  {
    if n > 0 {
      SafeHead(t);
      SafePrefix(t[1..], n - 1);
      assert Safe(t)[..n] == [t[0]] + Safe(t[1..])[..n - 1] && t[..n] == [t[0]] + t[1..][..n - 1];
      assert Safe(t)[n..] == Safe(t[1..])[n - 1..] && t[n..] == t[1..][n - 1..];
    } else {
      assert t[0..] == t && Safe(t)[0..] == Safe(t);
    }
  }

  /** A string reads the same after the rewriting, escapes and escaped backslashes included. */
  lemma {:induction false} SafeString(t: JsString)
    requires ReadString(t).StringRead?
    ensures ReadString(Safe(t)) == StringRead(ReadString(t).s, Safe(ReadString(t).rest))
    decreases |t|
  {
    if t[0] == 0x22 {
      SafeHead(t);
    } else if t[0] == 0x5C && ShortEscape(t[1]).Some? {
      SafePrefix(t, 2);
      SafeString(t[2..]);
      assert Safe(t)[0] == Safe(t)[..2][0] && Safe(t)[1] == Safe(t)[..2][1];
    } else if t[0] == 0x5C {
      assert forall i | 2 <= i < 6 :: t[i] == t[2..6][i - 2];
      SafePrefix(t, 6);
      SafeString(t[6..]);
      assert Safe(t)[2..6] == Safe(t)[..6][2..] && t[2..6] == t[..6][2..];
      assert Safe(t)[0] == Safe(t)[..6][0] && Safe(t)[1] == Safe(t)[..6][1];
    } else if Risky(t[0]) {
      SafeString(t[1..]);
      ReadsUnicodeEscape(t[0], Safe(t[1..]));
    } else {
      SafeHead(t);
      SafeString(t[1..]);
    }
  }

  lemma {:induction false} SafeSkip(t: JsString)
    ensures Skip(Safe(t)) == Safe(Skip(t))
  {
    if t != [] && !Risky(t[0]) {
      SafeHead(t);
      if IsBlank(t[0]) {
        SafeSkip(t[1..]);
      }
    }
  }

  lemma {:induction false} SafeRun(t: JsString)
    ensures NumberRun(Safe(t)) == NumberRun(t)
    ensures forall i | 0 <= i < NumberRun(t) :: !Risky(t[i])
  {
    if t != [] && !Risky(t[0]) {
      SafeHead(t);
      SafeRun(t[1..]);
      assert forall i | 1 <= i < NumberRun(t) :: t[i] == t[1..][i - 1];
    }
  }

  lemma SafeNumber(t: JsString)
    requires t != [] && IsNumber(t[..NumberRun(t)])
    ensures var n := NumberRun(t);
      Safe(t) != [] && Safe(t)[0] == t[0] && NumberRun(Safe(t)) == n && Safe(t)[..n] == t[..n] && Safe(t)[n..] == Safe(t[n..])
  {
    var n := NumberRun(t);
    SafeRun(t);
    SafePrefix(t, n);
    assert t[0] == t[..n][0] && Safe(t)[0] == Safe(t)[..n][0];
  }

  lemma SafeWord(t: JsString, word: JsString)
    requires word != [] && forall i | 0 <= i < |word| :: !Risky(word[i])
    requires Starts(t, word)
    ensures Starts(Safe(t), word) && Safe(t)[0] == t[0] && Safe(t)[|word|..] == Safe(t[|word|..])
  {
    assert forall i | 0 <= i < |word| :: t[i] == word[i];
    SafePrefix(t, |word|);
    assert t[..|word|] == word;
    assert Safe(t)[0] == Safe(t)[..|word|][0];
  }

  lemma {:induction false} SafeScalar(u: JsString)
    requires u != [] && Skip(u) == u && u[0] != 0x22 && u[0] != 0x5B && u[0] != 0x7B && ReadValue(u).Read?
    ensures ReadValue(Safe(u)) == Read(ReadValue(u).value, Safe(ReadValue(u).rest))
  {
    SafeSkip(u);
    hide Ascii, ReadItems, ReadMembers, ReadString, IsNumber, Safe, Skip, NumberRun;
    if Starts(u, Ascii("null")) {
      SafeWord(u, Ascii("null"));
    } else if Starts(u, Ascii("true")) {
      SafeWord(u, Ascii("true"));
    } else if Starts(u, Ascii("false")) {
      SafeWord(u, Ascii("false"));
    } else {
      SafeNumber(u);
      NumberIsNoWord(u);
    }
  }

  lemma NumberIsNoWord(t: JsString)
    requires t != [] && IsNumber(t[..NumberRun(t)])
    ensures InNumber(t[0]) && t[0] != 0x6E && t[0] != 0x74 && t[0] != 0x66
  {
    assert t[0] == t[..NumberRun(t)][0];
  }

  lemma {:induction false} SafeValue(t: JsString)
    requires ReadValue(t).Read?
    ensures ReadValue(Safe(t)) == Read(ReadValue(t).value, Safe(ReadValue(t).rest))
    decreases |t|, 2
  {
    var u := Skip(t);
    SafeSkip(t);
    SkipTwice(t);
    SkipTwice(Safe(t));
    SameAfterSkip(t);
    SameAfterSkip(Safe(t));
    if u[0] == 0x22 {
      SafeHead(u);
      SafeString(u[1..]);
    } else if u[0] == 0x5B {
      SafeArray(t, u);
    } else if u[0] == 0x7B {
      SafeObject(t, u);
    } else {
      SafeScalar(u);
    }
  }

  lemma {:induction false} SkipTwice(t: JsString)
    ensures Skip(Skip(t)) == Skip(t)
  {
  }

  lemma SameAfterSkip(t: JsString)
    ensures ReadValue(Skip(t)) == ReadValue(t)
  {
    SkipTwice(t);
  }

  lemma {:induction false} SafeArray(t: JsString, u: JsString)
    requires u == Skip(t) && u != [] && u[0] == 0x5B && ReadValue(u).Read? && Skip(u) == u && Skip(Safe(u)) == Safe(u)
    ensures ReadValue(Safe(u)) == Read(ReadValue(u).value, Safe(ReadValue(u).rest))
    decreases |t|, 1
  {
    SafeHead(u);
    SafeSkip(u[1..]);
    var v := Skip(u[1..]);
    if v != [] && v[0] == 0x5D {
      SafeHead(v);
    } else {
      SafeItems(u[1..]);
    }
  }

  lemma {:induction false} SafeObject(t: JsString, u: JsString)
    requires u == Skip(t) && u != [] && u[0] == 0x7B && ReadValue(u).Read? && Skip(u) == u && Skip(Safe(u)) == Safe(u)
    ensures ReadValue(Safe(u)) == Read(ReadValue(u).value, Safe(ReadValue(u).rest))
    decreases |t|, 1
  {
    SafeHead(u);
    SafeSkip(u[1..]);
    var v := Skip(u[1..]);
    if v != [] && v[0] == 0x7D {
      SafeHead(v);
    } else {
      SafeMembers(u[1..]);
    }
  }

  lemma {:induction false} SafeItems(t: JsString)
    requires ReadItems(t).Read?
    ensures ReadItems(Safe(t)) == Read(ReadItems(t).value, Safe(ReadItems(t).rest))
    decreases |t|, 3
  {
    hide ReadValue, Skip, Safe;
    SafeValue(t);
    var u := Skip(ReadValue(t).rest);
    SafeSkip(ReadValue(t).rest);
    SafeHead(u);
    if u[0] != 0x5D {
      SafeItems(u[1..]);
    }
  }

  lemma {:induction false} SafeMembers(t: JsString)
    requires ReadMembers(t).Read?
    ensures ReadMembers(Safe(t)) == Read(ReadMembers(t).value, Safe(ReadMembers(t).rest))
    decreases |t|, 3
  {
    hide ReadValue, ReadString, Skip, Safe;
    var k := Skip(t);
    SafeSkip(t);
    SafeHead(k);
    SafeString(k[1..]);
    var c := Skip(ReadString(k[1..]).rest);
    SafeSkip(ReadString(k[1..]).rest);
    SafeHead(c);
    SafeValue(c[1..]);
    var u := Skip(ReadValue(c[1..]).rest);
    SafeSkip(ReadValue(c[1..]).rest);
    SafeHead(u);
    if u[0] != 0x7D {
      SafeMembers(u[1..]);
    }
  }

  /** None of the five: less-than, greater-than, ampersand and the separators of lines and paragraphs. */
  ghost predicate FreeOfFive(t: JsString) {
    0x3C !in t && 0x3E !in t && 0x26 !in t && 0x2028 !in t && 0x2029 !in t
  }

  /** None of the five is left in any text, and a text without them stays as it is. */
  lemma SafeIsFreeOfFive(t: JsString)
    ensures FreeOfFive(Safe(t))
    ensures FreeOfFive(t) ==> Safe(t) == t
  {
    assert forall i | 0 <= i < |Safe(t)| :: !Risky(Safe(t)[i]);
    if FreeOfFive(t) {
      SafePrefix(t, |t|);
      assert t[..|t|] == t && t[|t|..] == [];
      assert Safe(t) == Safe(t)[..|t|] + Safe(t)[|t|..];
    }
  }

  /** Every text that means something means the same after the rewriting, and none of the five is left in it. */
  lemma {:induction false} SafeMeansTheSame(t: JsString)
    requires Parse(t).Some?
    ensures Parse(Safe(t)) == Parse(t)
    ensures FreeOfFive(Safe(t))
    ensures FreeOfFive(t) ==> Safe(t) == t
  {
    SafeValue(t);
    SafeSkip(ReadValue(t).rest);
    SafeIsFreeOfFive(t);
  }

  /** The page reads back exactly the value, whatever strings it holds. */
  lemma ScriptRoundTrip(v: Value)
    requires Sound(v)
    ensures Parse(JsonForScript(v)) == Some(v)
    ensures FreeOfFive(JsonForScript(v))
  {
    ParsePrint(v);
    SafeMeansTheSame(Print(v));
  }
}
