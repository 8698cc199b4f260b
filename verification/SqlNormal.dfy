/**
 The statements of an SQL script in a form that does not depend on its layout, and the
 drift that a comparison of two databases is allowed to show: `istruzioni`,
 `derivaInattesa`, `derivaVolutaMancante`.
 */
module SqlNormal {
  import opened Text

  /** Written by the tool in some comparisons only. */
  const QUALIFIER := "\"public\"."

  // --- The normaliser ---------------------------------------------------------------

  predicate IsComment(line: string) {
    "--" <= TrimStart(line)
  }

  function KeptLines(lines: seq<string>): seq<string> {
    if lines == [] then []
    else (if IsComment(lines[0]) then [] else [lines[0]]) + KeptLines(lines[1..])
  }

  function WithoutComments(script: string): string {
    Join(KeptLines(Split(script, '\n')), "\n")
  }

  /** Every qualifier taken out, in one pass. */
  function Unqualified(s: string): (r: string)
    ensures |r| <= |s|
  {
    if QUALIFIER <= s then Unqualified(s[|QUALIFIER|..])
    else if s == "" then ""
    else [s[0]] + Unqualified(s[1..])
  }

  /** Every run of blanks becomes one blank. */
  function Collapse(s: string): (r: string)
    ensures |r| <= |s|
    ensures r != "" <==> s != ""
    ensures s != "" ==> (r[0] == ' ' <==> IsSpace(s[0])) && (!IsSpace(s[0]) ==> r[0] == s[0])
  {
    if s == "" then ""
    else if !IsSpace(s[0]) then [s[0]] + Collapse(s[1..])
    else if |s| > 1 && IsSpace(s[1]) then Collapse(s[1..])
    else " " + Collapse(s[1..])
  }

  /** The words of a text with one blank between them. */
  function Squeeze(s: string): string {
    Trim(Collapse(s))
  }

  function Sentences(pieces: seq<string>): seq<string> {
    if pieces == [] then []
    else (if Squeeze(pieces[0]) == "" then [] else [Squeeze(pieces[0]) + ";"]) + Sentences(pieces[1..])
  }

  /** What is done to a text from which the comments are gone. */
  function Core(s: string): seq<string> {
    Sentences(Split(Unqualified(s), ';'))
  }

  function Statements(script: string): seq<string> {
    Core(WithoutComments(script))
  }

  // --- Splitting -----------------------------------------------------------------------

  /** The pieces of a text, from the pieces of its tail. */
  lemma SplitStep(c: char, s: string, sep: char)
    ensures Split([c] + s, sep) == if c == sep then [""] + Split(s, sep) else [[c] + Split(s, sep)[0]] + Split(s, sep)[1..]
  {
    assert ([c] + s)[1..] == s;
  }

  lemma {:induction false} SplitAppend(a: string, sep: char, b: string)
    ensures Split(a + [sep] + b, sep) == Split(a, sep) + Split(b, sep)
  {
    hide Split;
    if a == "" {
      SplitStep(sep, b, sep);
      SplitNothing(sep);
      assert a + [sep] + b == [sep] + b;
    } else {
      var tail := a[1..] + [sep] + b;
      assert a + [sep] + b == [a[0]] + tail && a == [a[0]] + a[1..];
      SplitAppend(a[1..], sep, b);
      SplitStep(a[0], tail, sep);
      SplitStep(a[0], a[1..], sep);
      FirstOfBoth(a[0], Split(a[1..], sep), Split(b, sep));
    }
  }

  lemma SplitNothing(sep: char)
    ensures Split("", sep) == [""]
  {
  }

  lemma FirstOfBoth(c: char, p: seq<string>, q: seq<string>)
    requires p != []
    ensures [[c] + (p + q)[0]] + (p + q)[1..] == [[c] + p[0]] + p[1..] + q
    ensures [""] + (p + q) == [""] + p + q
  {
  }

  lemma {:induction false} SentencesAppend(a: seq<string>, b: seq<string>)
    ensures Sentences(a + b) == Sentences(a) + Sentences(b)
  {
    hide Squeeze;
    if a == [] {
      assert a + b == b;
    } else {
      assert (a + b)[1..] == a[1..] + b;
      SentencesAppend(a[1..], b);
    }
  }

  lemma QualifierChars()
    ensures |QUALIFIER| == 9 && forall i | 0 <= i < 9 :: !IsSpace(QUALIFIER[i]) && QUALIFIER[i] != ';'
  {
  }

  lemma QualifierAcross(a: string, c: char, b: string)
    requires c !in QUALIFIER
    ensures QUALIFIER <= a + [c] + b <==> QUALIFIER <= a
  {
    var s := a + [c] + b;
    assert s[|a|] == c && forall i | 0 <= i < |QUALIFIER| :: QUALIFIER[i] in QUALIFIER;
    assert s[..|a|] == a;
    if |a| >= |QUALIFIER| {
      assert s[..|QUALIFIER|] == a[..|QUALIFIER|];
    } else {
      assert s[|a|] != QUALIFIER[|a|];
    }
  }

  lemma UnqualifiedStep(c: char, s: string)
    requires !(QUALIFIER <= [c] + s)
    ensures Unqualified([c] + s) == [c] + Unqualified(s)
  {
    assert ([c] + s)[1..] == s;
  }

  lemma UnqualifiedSkip(s: string)
    ensures Unqualified(QUALIFIER + s) == Unqualified(s)
  {
    assert (QUALIFIER + s)[|QUALIFIER|..] == s;
  }

  lemma UnqualifiedNothing()
    ensures Unqualified("") == ""
  {
  }

  lemma Reassociated(x: string, r: string, c: char, b: string)
    ensures (x + r) + [c] + b == x + (r + [c] + b)
  {
  }

  /** A character that the qualifier does not hold keeps the two sides apart. */
  lemma {:induction false} UnqualifiedAcross(a: string, c: char, b: string)
    requires c !in QUALIFIER
    ensures Unqualified(a + [c] + b) == Unqualified(a) + [c] + Unqualified(b)
    decreases |a|
  {
    QualifierAcross(a, c, b);
    hide Unqualified;
    if QUALIFIER <= a {
      var r := a[|QUALIFIER|..];
      assert a == QUALIFIER + r;
      Reassociated(QUALIFIER, r, c, b);
      UnqualifiedSkip(r);
      UnqualifiedSkip(r + [c] + b);
      UnqualifiedAcross(r, c, b);
    } else if a == "" {
      assert a + [c] + b == [c] + b;
      UnqualifiedStep(c, b);
      UnqualifiedNothing();
    } else {
      UnqualifiedAcross(a[1..], c, b);
      assert a == [a[0]] + a[1..];
      AcrossOneMore(a[0], a[1..], c, b);
    }
  }

  lemma {:induction false} AcrossOneMore(x: char, a: string, c: char, b: string)
    requires c !in QUALIFIER && !(QUALIFIER <= [x] + a)
    requires Unqualified(a + [c] + b) == Unqualified(a) + [c] + Unqualified(b)
    ensures Unqualified([x] + a + [c] + b) == Unqualified([x] + a) + [c] + Unqualified(b)
  {
    QualifierAcross([x] + a, c, b);
    hide Unqualified;
    Reassociated([x], a, c, b);
    UnqualifiedStep(x, a + [c] + b);
    UnqualifiedStep(x, a);
    Reassociated([x], Unqualified(a), c, Unqualified(b));
  }

  /** A semicolon ends what comes before it. */
  lemma CoreAppend(a: string, b: string)
    ensures Core(a + ";" + b) == Core(a) + Core(b)
  {
    QualifierChars();
    UnqualifiedAcross(a, ';', b);
    SplitAppend(Unqualified(a), ';', Unqualified(b));
    SentencesAppend(Split(Unqualified(a), ';'), Split(Unqualified(b), ';'));
  }

  // --- Blanks ------------------------------------------------------------------------------

  /** At least one blank in front. */
  function Spaced(s: string): string {
    if s != "" && s[0] == ' ' then s else " " + s
  }

  lemma CollapseSpace(c: char, s: string)
    requires IsSpace(c)
    ensures Collapse([c] + s) == Spaced(Collapse(s))
  {
    assert ([c] + s)[1..] == s;
  }

  lemma {:induction false} StartOfCollapsed(s: string, start: string)
    requires forall i | 0 <= i < |start| :: !IsSpace(start[i])
    ensures start <= Collapse(s) <==> start <= s
  {
    if start != "" && s != "" && !IsSpace(s[0]) {
      StartOfCollapsed(s[1..], start[1..]);
      assert start == [start[0]] + start[1..] && s == [s[0]] + s[1..];
      assert Collapse(s) == [s[0]] + Collapse(s[1..]);
    }
  }

  lemma {:induction false} CollapseAfter(start: string, s: string)
    requires forall i | 0 <= i < |start| :: !IsSpace(start[i])
    ensures Collapse(start + s) == start + Collapse(s)
  {
    if start == "" {
      assert start + s == s;
    } else {
      CollapseAfter(start[1..], s);
      assert (start + s)[1..] == start[1..] + s;
    }
  }

  /** Taking out the qualifiers and collapsing the blanks: collapsing first changes nothing. */
  lemma {:induction false} CollapseFirst(s: string)
    ensures Collapse(Unqualified(s)) == Collapse(Unqualified(Collapse(s)))
    decreases |s|
  {
    QualifierChars();
    StartOfCollapsed(s, QUALIFIER);
    if QUALIFIER <= s {
      var rest := s[|QUALIFIER|..];
      CollapseFirst(rest);
      CollapseAfter(QUALIFIER, rest);
      assert s == QUALIFIER + rest;
      assert (QUALIFIER + Collapse(rest))[|QUALIFIER|..] == Collapse(rest);
    } else if s != "" && !IsSpace(s[0]) {
      CollapseFirst(s[1..]);
      var c := Collapse(s[1..]);
      assert Collapse(s) == [s[0]] + c && ([s[0]] + c)[1..] == c;
      CollapseAfter([s[0]], Unqualified(s[1..]));
      CollapseAfter([s[0]], Unqualified(c));
    } else if s != "" {
      CollapseFirst(s[1..]);
    }
  }

  lemma UnqualifiedBlank(c: char, s: string)
    requires IsSpace(c)
    ensures Unqualified([c] + s) == [c] + Unqualified(s)
  {
    QualifierChars();
    assert ([c] + s)[0] != QUALIFIER[0];
    assert ([c] + s)[1..] == s;
  }

  function EachCollapsed(pieces: seq<string>): (r: seq<string>)
    ensures |r| == |pieces|
  {
    if pieces == [] then [] else [Collapse(pieces[0])] + EachCollapsed(pieces[1..])
  }

  /** Blank runs never reach across a semicolon. */
  lemma {:induction false} SplitCollapsed(s: string)
    ensures Split(Collapse(s), ';') == EachCollapsed(Split(s, ';'))
    decreases |s|
  {
    if s != "" {
      var rest := Split(s[1..], ';');
      var all := Split(s, ';');
      SplitCollapsed(s[1..]);
      var c := Collapse(s[1..]);
      if s[0] == ';' {
        assert all[1..] == rest;
        assert Collapse(s) == ";" + c && (";" + c)[1..] == c;
      } else {
        assert all[1..] == rest[1..] && all[0] == [s[0]] + rest[0] && all[0][1..] == rest[0];
        if !IsSpace(s[0]) {
          assert Collapse(s) == [s[0]] + c && ([s[0]] + c)[1..] == c;
        } else if |s| > 1 && IsSpace(s[1]) {
          assert Collapse(s) == c;
          assert all[0][1] == s[1];
        } else {
          assert Collapse(s) == " " + c && (" " + c)[1..] == c;
        }
      }
    }
  }

  lemma {:induction false} SentencesOfCollapsed(a: seq<string>, b: seq<string>)
    requires EachCollapsed(a) == EachCollapsed(b)
    ensures Sentences(a) == Sentences(b)
  {
    if a != [] && b != [] {
      assert EachCollapsed(a)[0] == Collapse(a[0]) && EachCollapsed(b)[0] == Collapse(b[0]);
      assert EachCollapsed(a)[1..] == EachCollapsed(a[1..]) && EachCollapsed(b)[1..] == EachCollapsed(b[1..]);
      SentencesOfCollapsed(a[1..], b[1..]);
    } else {
      assert |EachCollapsed(a)| == |EachCollapsed(b)|;
    }
  }

  lemma CoreOfCollapsed(s: string)
    ensures Core(s) == Core(Collapse(s))
  {
    CollapseFirst(s);
    SplitCollapsed(Unqualified(s));
    SplitCollapsed(Unqualified(Collapse(s)));
    SentencesOfCollapsed(Split(Unqualified(s), ';'), Split(Unqualified(Collapse(s)), ';'));
  }

  // --- Blanks at the ends ----------------------------------------------------------------------

  lemma SqueezeLeading(c: char, s: string)
    requires IsSpace(c)
    ensures Squeeze([c] + s) == Squeeze(s)
  {
    CollapseSpace(c, s);
    var y := Collapse(s);
    if Spaced(y) != y {
      assert (" " + y)[1..] == y;
    }
  }

  lemma SentencesLeading(c: char, first: string, others: seq<string>)
    requires IsSpace(c)
    ensures Sentences([[c] + first] + others) == Sentences([first] + others)
  {
    SqueezeLeading(c, first);
    hide Squeeze, IsSpace;
    assert ([[c] + first] + others)[1..] == ([first] + others)[1..] == others;
  }

  lemma CoreLeading(c: char, s: string)
    requires IsSpace(c)
    ensures Core([c] + s) == Core(s)
  {
    UnqualifiedBlank(c, s);
    hide Unqualified, Sentences, Split, IsSpace;
    var p := Split(Unqualified(s), ';');
    SentencesLeading(c, p[0], p[1..]);
    assert p == [p[0]] + p[1..];
  }

  lemma {:induction false} CoreTrimStart(s: string)
    ensures Core(TrimStart(s)) == Core(s)
  {
    hide Core;
    if s != "" && IsSpace(s[0]) {
      CoreTrimStart(s[1..]);
      CoreLeading(s[0], s[1..]);
      assert s == [s[0]] + s[1..];
    }
  }

  lemma {:induction false} CollapseTrailing(s: string, c: char)
    requires IsSpace(c)
    ensures Collapse(s + [c]) == if s != "" && IsSpace(s[|s| - 1]) then Collapse(s) else Collapse(s) + " "
  {
    var t := s + [c];
    if s == "" {
      assert t == [c] && t[1..] == "";
    } else {
      assert t[1..] == s[1..] + [c];
      CollapseTrailing(s[1..], c);
    }
  }

  lemma {:induction false} TrimStartTrailing(s: string)
    ensures TrimStart(s + " ") == if TrimStart(s) == "" then "" else TrimStart(s) + " "
  {
    if s == "" {
      assert TrimStart(" ") == TrimStart(" "[1..]) == "";
    } else if IsSpace(s[0]) {
      assert (s + " ")[1..] == s[1..] + " ";
      TrimStartTrailing(s[1..]);
    }
  }

  lemma SqueezeTrailing(s: string, c: char)
    requires IsSpace(c)
    ensures Squeeze(s + [c]) == Squeeze(s)
  {
    CollapseTrailing(s, c);
    var y := Collapse(s);
    TrimStartTrailing(y);
    var t := TrimStart(y);
    if t != "" {
      assert (t + " ")[..|t|] == t;
    }
  }

  lemma {:induction false} SplitTrailing(s: string, c: char)
    requires c != ';'
    ensures var p := Split(s, ';'); Split(s + [c], ';') == p[..|p| - 1] + [p[|p| - 1] + [c]]
  {
    hide Split;
    SplitNothing(';');
    if s == "" {
      SplitStep(c, "", ';');
      assert s + [c] == [c] + "" && [c] + "" == "" + [c];
    } else {
      var q := Split(s[1..], ';');
      assert s == [s[0]] + s[1..] && s + [c] == [s[0]] + (s[1..] + [c]);
      SplitTrailing(s[1..], c);
      SplitStep(s[0], s[1..], ';');
      SplitStep(s[0], s[1..] + [c], ';');
      TrailingOfFirst(s[0], q, c);
    }
  }

  lemma TrailingOfFirst(a: char, q: seq<string>, c: char)
    requires q != []
    ensures var r := q[..|q| - 1] + [q[|q| - 1] + [c]];
      && [[a] + r[0]] + r[1..] == (var p := [[a] + q[0]] + q[1..]; p[..|p| - 1] + [p[|p| - 1] + [c]])
      && [""] + r == (var p := [""] + q; p[..|p| - 1] + [p[|p| - 1] + [c]])
  {
    if |q| == 1 {
      assert [a] + (q[0] + [c]) == [a] + q[0] + [c];
    }
  }

  lemma UnqualifiedTrailing(s: string, c: char)
    requires IsSpace(c)
    ensures Unqualified(s + [c]) == Unqualified(s) + [c]
  {
    QualifierChars();
    assert s + [c] == s + [c] + "";
    UnqualifiedAcross(s, c, "");
  }

  lemma OneSentence(u: string)
    ensures Sentences([u]) == if Squeeze(u) == "" then [] else [Squeeze(u) + ";"]
  {
    hide Squeeze;
    assert [u][1..] == [];
    assert Sentences([]) == [];
  }

  lemma {:induction false} SentencesTrailing(p: seq<string>, c: char)
    requires IsSpace(c) && p != []
    ensures Sentences(p[..|p| - 1] + [p[|p| - 1] + [c]]) == Sentences(p)
  {
    hide Squeeze, IsSpace, Sentences;
    var init, last := p[..|p| - 1], p[|p| - 1];
    assert p == init + [last];
    SqueezeTrailing(last, c);
    OneSentence(last);
    OneSentence(last + [c]);
    SentencesAppend(init, [last + [c]]);
    SentencesAppend(init, [last]);
  }

  lemma CoreTrailing(s: string, c: char)
    requires IsSpace(c)
    ensures Core(s + [c]) == Core(s)
  {
    hide Unqualified, Sentences, Split;
    assert IsSpace(c) ==> c != ';';
    UnqualifiedTrailing(s, c);
    SplitTrailing(Unqualified(s), c);
    SentencesTrailing(Split(Unqualified(s), ';'), c);
  }

  lemma {:induction false} CoreTrimEnd(s: string)
    ensures Core(TrimEnd(s)) == Core(s)
  {
    hide Core;
    if s != "" && IsSpace(s[|s| - 1]) {
      CoreTrimEnd(s[..|s| - 1]);
      CoreTrailing(s[..|s| - 1], s[|s| - 1]);
      assert s == s[..|s| - 1] + [s[|s| - 1]];
    }
  }

  /** The statements depend on the words alone. */
  lemma CoreOfSqueezed(s: string)
    ensures Core(s) == Core(Squeeze(s))
  {
    CoreOfCollapsed(s);
    CoreTrimStart(Collapse(s));
    CoreTrimEnd(TrimStart(Collapse(s)));
  }

  // --- Words ---------------------------------------------------------------------------------

  /** A character as the start of the first word, or as a word of its own. */
  function Glued(c: char, together: bool, words: seq<string>): seq<string>
    requires together ==> words != []
  {
    if together then [[c] + words[0]] + words[1..] else [[c]] + words
  }

  lemma GluedAppend(c: char, together: bool, w: seq<string>, v: seq<string>)
    requires together ==> w != []
    ensures Glued(c, together, w + v) == Glued(c, together, w) + v
  {
  }

  /** The longest runs without blanks. */
  function Words(s: string): (words: seq<string>)
    ensures forall w | w in words :: w != "" && forall i | 0 <= i < |w| :: !IsSpace(w[i])
    ensures s != "" && !IsSpace(s[0]) ==> words != [] && words[0][0] == s[0]
  {
    if s == "" then []
    else if IsSpace(s[0]) then Words(s[1..])
    else Glued(s[0], |s| > 1 && !IsSpace(s[1]), Words(s[1..]))
  }

  /** The words of a text, from the words of its tail. */
  lemma WordsStep(c: char, s: string)
    ensures Words([c] + s) == if IsSpace(c) then Words(s) else Glued(c, s != "" && !IsSpace(s[0]), Words(s))
  {
    assert ([c] + s)[1..] == s;
  }

  lemma {:induction false} WordsAcross(a: string, c: char, b: string)
    requires IsSpace(c)
    ensures Words(a + [c] + b) == Words(a) + Words(b)
  {
    hide Words, IsSpace, Glued;
    if a == "" {
      NoWords();
      WordsStep(c, b);
      assert a + [c] + b == [c] + b;
    } else {
      var tail := a[1..] + [c] + b;
      assert a + [c] + b == [a[0]] + tail && a == [a[0]] + a[1..];
      assert tail[0] == if |a| > 1 then a[1] else c;
      WordsAcross(a[1..], c, b);
      WordsStep(a[0], tail);
      WordsStep(a[0], a[1..]);
      if !IsSpace(a[0]) {
        GluedAppend(a[0], |a| > 1 && !IsSpace(a[1]), Words(a[1..]), Words(b));
      }
    }
  }

  lemma NoWords()
    ensures Words("") == []
  {
  }

  lemma {:induction false} OneWord(w: string)
    requires w != "" && forall i | 0 <= i < |w| :: !IsSpace(w[i])
    ensures Words(w) == [w]
  {
    if |w| > 1 {
      OneWord(w[1..]);
      assert [w[0]] + w[1..] == w;
    } else {
      assert w == [w[0]] && w[1..] == "";
    }
  }

  lemma {:induction false} WordsOfJoined(words: seq<string>)
    requires forall w | w in words :: w != "" && forall i | 0 <= i < |w| :: !IsSpace(w[i])
    ensures Words(Join(words, " ")) == words
  {
    if |words| == 1 {
      OneWord(words[0]);
      assert words == [words[0]];
    } else if |words| > 1 {
      OneWord(words[0]);
      WordsOfJoined(words[1..]);
      WordsAcross(words[0], ' ', Join(words[1..], " "));
      assert words == [words[0]] + words[1..];
    }
  }

  lemma {:induction false} TrimEndAfter(c: char, y: string)
    requires !IsSpace(c)
    ensures TrimEnd([c] + y) == [c] + TrimEnd(y)
  {
    if y == "" {
      assert [c] + y == [c];
    } else if IsSpace(y[|y| - 1]) {
      assert ([c] + y)[..|y|] == [c] + y[..|y| - 1];
      TrimEndAfter(c, y[..|y| - 1]);
    }
  }

  lemma {:induction false} TrimEndAfterBlank(z: string)
    ensures TrimEnd(" " + z) == if TrimEnd(z) == "" then "" else " " + TrimEnd(z)
  {
    if z == "" {
      assert " " + z == " " && (" ")[..0] == "";
    } else if IsSpace(z[|z| - 1]) {
      assert (" " + z)[..|z|] == " " + z[..|z| - 1];
      TrimEndAfterBlank(z[..|z| - 1]);
    }
  }

  lemma {:induction false} OneBlank(s: string)
    ensures var y := Collapse(s); y != "" && IsSpace(y[0]) ==> TrimStart(y) == y[1..]
  {
    if s != "" {
      OneBlank(s[1..]);
    }
  }

  lemma JoinWithHead(c: char, together: bool, words: seq<string>)
    requires together ==> words != []
    ensures Join(Glued(c, together, words), " ") ==
      if together || words == [] then [c] + Join(words, " ") else [c] + (" " + Join(words, " "))
  {
    if together {
      assert Glued(c, together, words)[1..] == words[1..];
      if |words| > 1 {
        assert [c] + words[0] + " " + Join(words[1..], " ") == [c] + (words[0] + " " + Join(words[1..], " "));
      }
    } else {
      assert Glued(c, together, words)[1..] == words;
      assert [c] + " " + Join(words, " ") == [c] + (" " + Join(words, " "));
    }
  }

  lemma {:induction false} SqueezeJoinsWords(s: string)
    ensures Squeeze(s) == Join(Words(s), " ")
    ensures Squeeze(s) == "" <==> Words(s) == []
  {
    if s != "" && IsSpace(s[0]) {
      SqueezeLeading(s[0], s[1..]);
      assert s == [s[0]] + s[1..];
      SqueezeJoinsWords(s[1..]);
    } else if s != "" {
      SqueezeJoinsWords(s[1..]);
      SqueezeWord(s);
    }
  }

  lemma {:induction false} SqueezeHead(c: char, r: string)
    requires !IsSpace(c)
    ensures Squeeze([c] + r) == [c] + TrimEnd(Collapse(r))
  {
    assert ([c] + r)[1..] == r;
    TrimEndAfter(c, Collapse(r));
    assert TrimStart([c] + Collapse(r)) == [c] + Collapse(r);
  }

  lemma {:induction false} TrimEndOfCollapsed(r: string)
    ensures TrimEnd(Collapse(r)) == if r != "" && IsSpace(r[0]) && Squeeze(r) != "" then " " + Squeeze(r) else Squeeze(r)
  {
    var y := Collapse(r);
    if r != "" && IsSpace(r[0]) {
      OneBlank(r);
      TrimEndAfterBlank(y[1..]);
      assert y == " " + y[1..];
    } else {
      assert TrimStart(y) == y;
    }
  }

  lemma SqueezeWord(s: string)
    requires s != "" && !IsSpace(s[0])
    requires Squeeze(s[1..]) == Join(Words(s[1..]), " ") && (Squeeze(s[1..]) == "" <==> Words(s[1..]) == [])
    ensures Squeeze(s) == Join(Words(s), " ") && Squeeze(s) != "" && Words(s) != []
  {
    hide Squeeze, Join, Words, IsSpace, Collapse, TrimEnd, Glued;
    var c, r := s[0], s[1..];
    var together := r != "" && !IsSpace(r[0]);
    assert s == [c] + r;
    SqueezeHead(c, r);
    TrimEndOfCollapsed(r);
    WordsStep(c, r);
    JoinWithHead(c, together, Words(r));
    if r == "" {
      NoWords();
    }
    GluedIsSomething(c, together, Words(r));
  }

  lemma GluedIsSomething(c: char, together: bool, words: seq<string>)
    requires together ==> words != []
    ensures Glued(c, together, words) != []
  {
  }

  lemma {:induction false} SqueezeTwice(s: string)
    ensures Words(Squeeze(s)) == Words(s) && Squeeze(Squeeze(s)) == Squeeze(s)
  {
    SqueezeJoinsWords(s);
    WordsOfJoined(Words(s));
    SqueezeJoinsWords(Squeeze(s));
  }

  // --- Comments --------------------------------------------------------------------------------

  /** No word starts with two dashes. */
  ghost predicate NoComments(s: string) {
    forall w | w in Words(s) :: !("--" <= w)
  }

  lemma {:induction false} WordsOfTrimmed(s: string)
    ensures Words(TrimStart(s)) == Words(s)
  {
    if s != "" && IsSpace(s[0]) {
      WordsOfTrimmed(s[1..]);
    }
  }

  lemma DashedWord(t: string)
    ensures "--" <= t ==> Words(t) != [] && "--" <= Words(t)[0]
  {
    if "--" <= t {
      var r, u := t[1..], t[2..];
      assert t == ['-'] + r && r == ['-'] + u;
      assert !IsSpace('-');
      WordsStep('-', r);
      WordsStep('-', u);
      hide Words;
      assert Words(r)[0][0] == '-';
    }
  }

  /** A line of blanks, two dashes and anything at all changes nothing. */
  lemma CommentLineIsDropped(pad: string, remark: string, rest: string)
    requires (forall c | c in pad :: IsSpace(c)) && '\n' !in pad && '\n' !in remark
    ensures Statements(pad + "--" + remark + "\n" + rest) == Statements(rest)
  {
    var line := pad + "--" + remark;
    assert line == pad + ("--" + remark) && !IsSpace('-');
    TrimStartOf(pad, "--" + remark);
    SplitHead(line, rest, '\n');
    var all := pad + "--" + remark + "\n" + rest;
    assert line + ['\n'] + rest == all;
    assert IsComment(line);
    hide Core, Split, IsSpace, IsComment;
    var lines := [line] + Split(rest, '\n');
    assert lines[1..] == Split(rest, '\n');
    assert Split(all, '\n') == lines;
    assert KeptLines(lines) == [] + KeptLines(Split(rest, '\n')) == KeptLines(Split(rest, '\n'));
  }

  /** Any other line stays. */
  lemma OtherLineIsKept(pad: string, text: string, rest: string)
    requires (forall c | c in pad :: IsSpace(c)) && '\n' !in pad && '\n' !in text
    requires text == "" || (!IsSpace(text[0]) && !(|text| > 1 && text[0] == text[1] == '-'))
    ensures KeptLines(Split(pad + text + "\n" + rest, '\n')) == [pad + text] + KeptLines(Split(rest, '\n'))
  {
    var line := pad + text;
    TrimStartOf(pad, text);
    SplitHead(line, rest, '\n');
    assert line + ['\n'] + rest == pad + text + "\n" + rest;
    KeptFirst(line, Split(rest, '\n'));
  }

  /** The name of the schema in front of a table is taken out. */
  lemma QualifierIsTakenOut(s: string)
    ensures Unqualified("\"public\"." + s) == Unqualified(s)
  {
    var all := "\"public\"." + s;
    assert all[9..] == s;
  }

  lemma NoCommentLine(line: string)
    requires NoComments(line)
    ensures !IsComment(line)
  {
    WordsOfTrimmed(line);
    DashedWord(TrimStart(line));
    assert Words(line) != [] ==> Words(line)[0] in Words(line);
  }

  function FirstIndex(s: string, c: char): (n: nat)
    requires c in s
    ensures n < |s| && s[n] == c && c !in s[..n]
  {
    if s[0] == c then 0 else
      var n := FirstIndex(s[1..], c);
      assert s[..n + 1] == [s[0]] + s[1..][..n];
      n + 1
  }

  lemma NoCommentsInParts(line: string, rest: string)
    requires NoComments(line + ['\n'] + rest)
    ensures NoComments(line) && NoComments(rest)
  {
    WordsAcross(line, '\n', rest);
    var all := Words(line + ['\n'] + rest);
    hide Words;
    assert forall w | w in Words(line) :: w in all;
    assert forall w | w in Words(rest) :: w in all;
  }

  lemma KeptFirst(line: string, rest: seq<string>)
    requires !IsComment(line)
    ensures KeptLines([line] + rest) == [line] + KeptLines(rest)
  {
    assert ([line] + rest)[1..] == rest;
  }

  lemma {:induction false} EveryLineIsKept(s: string)
    requires NoComments(s)
    ensures KeptLines(Split(s, '\n')) == Split(s, '\n')
    decreases |s|
  {
    hide NoComments, IsComment, KeptLines, Split;
    if '\n' in s {
      var n := FirstIndex(s, '\n');
      var line, rest := s[..n], s[n + 1..];
      assert s == line + ['\n'] + rest;
      NoCommentsInParts(line, rest);
      SplitHead(line, rest, '\n');
      NoCommentLine(line);
      EveryLineIsKept(rest);
      KeptFirst(line, Split(rest, '\n'));
    } else {
      SplitNone(s, '\n');
      NoCommentLine(s);
      KeptFirst(s, []);
      NothingKept();
      assert [s] + [] == [s];
    }
  }

  lemma NothingKept()
    ensures KeptLines([]) == []
  {
  }

  lemma NothingToDrop(s: string)
    requires NoComments(s)
    ensures WithoutComments(s) == s
  {
    EveryLineIsKept(s);
    JoinSplit(s, '\n');
  }

  /** Two scripts that have the same words once their comment lines are gone have the same statements. */
  lemma LayoutDoesNotMatter(a: string, b: string)
    requires Words(WithoutComments(a)) == Words(WithoutComments(b))
    ensures Statements(a) == Statements(b)
  {
    SqueezeJoinsWords(WithoutComments(a));
    SqueezeJoinsWords(WithoutComments(b));
    CoreOfSqueezed(WithoutComments(a));
    CoreOfSqueezed(WithoutComments(b));
  }

  /** For scripts in which no word opens a comment these are all their words. */
  lemma {:induction false} WithoutCommentsOnlyWordsMatter(a: string, b: string)
    requires Words(a) == Words(b) && NoComments(a)
    ensures Statements(a) == Statements(b)
  {
    NothingToDrop(a);
    NothingToDrop(b);
    LayoutDoesNotMatter(a, b);
  }

  // --- What a statement looks like ----------------------------------------------------------------

  function Body(statement: string): string {
    if statement == "" then "" else statement[..|statement| - 1]
  }

  /** Words with one blank between them, and one semicolon, at the end. */
  ghost predicate Shaped(o: string) {
    |o| >= 2 && o[|o| - 1] == ';' && ';' !in Body(o) && Join(Words(Body(o)), " ") == Body(o)
  }

  lemma {:induction false} CollapseKeepsOut(s: string)
    requires ';' !in s
    ensures ';' !in Collapse(s)
  {
    if s != "" {
      CollapseKeepsOut(s[1..]);
    }
  }

  lemma {:induction false} TrimsKeepOut(s: string)
    requires ';' !in s
    ensures ';' !in TrimStart(s) && ';' !in TrimEnd(s)
  {
    if s != "" {
      TrimsKeepOut(s[1..]);
      TrimsKeepOut(s[..|s| - 1]);
    }
  }

  lemma SqueezedIsShaped(piece: string)
    requires ';' !in piece && Squeeze(piece) != ""
    ensures Shaped(Squeeze(piece) + ";")
  {
    CollapseKeepsOut(piece);
    TrimsKeepOut(Collapse(piece));
    TrimsKeepOut(TrimStart(Collapse(piece)));
    var b := Squeeze(piece);
    assert ';' !in b;
    SqueezeTwice(piece);
    SqueezeJoinsWords(b);
    hide Squeeze, Words, Join;
    assert Body(b + ";") == b;
  }

  lemma {:induction false} SentencesAreShaped(pieces: seq<string>, o: string)
    requires (forall p | p in pieces :: ';' !in p) && o in Sentences(pieces)
    ensures Shaped(o)
  {
    if Squeeze(pieces[0]) != "" && o == Squeeze(pieces[0]) + ";" {
      SqueezedIsShaped(pieces[0]);
    } else {
      SentencesAreShaped(pieces[1..], o);
    }
  }

  lemma {:induction false} StatementsAreShaped(script: string)
    ensures forall o | o in Statements(script) :: Shaped(o)
  {
    forall o | o in Statements(script) ensures Shaped(o) {
      SentencesAreShaped(Split(Unqualified(WithoutComments(script)), ';'), o);
    }
  }

  /** A statement for every stretch that has words: those words with one blank between them, and a semicolon. */
  ghost function ByWords(stretches: seq<string>): seq<string> {
    if stretches == [] then []
    else (if Words(stretches[0]) == [] then [] else [Join(Words(stretches[0]), " ") + ";"]) + ByWords(stretches[1..])
  }

  lemma {:induction false} SentencesByWords(pieces: seq<string>)
    ensures Sentences(pieces) == ByWords(pieces)
  {
    hide Words, Squeeze, Join;
    if pieces != [] {
      SqueezeJoinsWords(pieces[0]);
      SentencesByWords(pieces[1..]);
    }
  }

  /** Nothing is lost: the statements are the stretches between semicolons, comments and qualifiers aside, word for word. */
  lemma StatementsByWords(script: string)
    ensures Statements(script) == ByWords(Split(Unqualified(WithoutComments(script)), ';'))
  {
    SentencesByWords(Split(Unqualified(WithoutComments(script)), ';'));
    hide ByWords, Sentences, Unqualified, Split, WithoutComments;
  }

  // --- Normalising again -----------------------------------------------------------------------------

  /** What one statement becomes when it is normalised again. */
  function Again(o: string): seq<string> {
    if "--" <= o then [] else Core(Body(o))
  }

  function EachAgain(out: seq<string>): seq<string> {
    if out == [] then [] else Again(out[0]) + EachAgain(out[1..])
  }

  lemma ShapedStarts(o: string)
    requires Shaped(o)
    ensures o != "" && !IsSpace(o[0]) && '\n' !in o && o == Body(o) + ";" && TrimStart(o) == o
  {
    var b := Body(o);
    var words := Words(b);
    assert o == b + ";" && b != "";
    JoinedChars(words);
    JoinStarts(words);
    assert o[0] == b[0];
  }

  lemma JoinStarts(words: seq<string>)
    requires Join(words, " ") != "" && forall w | w in words :: w != "" && forall i | 0 <= i < |w| :: !IsSpace(w[i])
    ensures !IsSpace(Join(words, " ")[0])
  {
    assert words != [] && words[0] in words;
    if |words| > 1 {
      assert Join(words, " ") == words[0] + (" " + Join(words[1..], " "));
    }
  }

  lemma {:induction false} JoinedChars(words: seq<string>)
    requires forall w | w in words :: forall i | 0 <= i < |w| :: !IsSpace(w[i])
    ensures '\n' !in Join(words, " ")
  {
    if words != [] {
      assert words[0] in words;
      assert IsSpace('\n');
      if |words| > 1 {
        JoinedChars(words[1..]);
      }
    }
  }

  lemma {:induction false} SplitJoined(lines: seq<string>)
    requires lines != [] && forall l | l in lines :: '\n' !in l
    ensures Split(Join(lines, "\n"), '\n') == lines
  {
    if |lines| == 1 {
      SplitNone(lines[0], '\n');
    } else {
      assert lines[0] in lines;
      SplitJoined(lines[1..]);
      SplitHead(lines[0], Join(lines[1..], "\n"), '\n');
      assert lines == [lines[0]] + lines[1..];
    }
  }

  lemma CoreOfNothing()
    ensures Core("") == []
  {
    assert Split("", ';') == [""];
    assert Collapse("") == "" && Trim("") == "";
    assert [""][1..] == [];
  }

  lemma StatementAndRest(o: string, rest: string)
    requires o == Body(o) + ";"
    ensures Body(o) + ";" + "" == o && o + "\n" + rest == Body(o) + ";" + ("\n" + rest)
  {
  }

  lemma CoreOfStatement(o: string, rest: string)
    requires Shaped(o)
    ensures Core(o) == Core(Body(o))
    ensures Core(o + "\n" + rest) == Core(Body(o)) + Core(rest)
  {
    ShapedStarts(o);
    hide Core, Shaped, Body, IsSpace;
    CoreAppend(Body(o), "");
    CoreOfNothing();
    CoreAppend(Body(o), "\n" + rest);
    NewlineLeads(rest);
    StatementAndRest(o, rest);
  }

  lemma NewlineLeads(rest: string)
    ensures Core("\n" + rest) == Core(rest)
  {
    CoreLeading('\n', rest);
    assert "\n" + rest == ['\n'] + rest;
  }

  lemma KeptStep(o: string, rest: seq<string>)
    requires Shaped(o)
    ensures KeptLines([o] + rest) == (if "--" <= o then [] else [o]) + KeptLines(rest)
  {
    ShapedStarts(o);
    assert ([o] + rest)[1..] == rest;
  }

  lemma JoinStep(o: string, rest: seq<string>)
    ensures Join([o] + rest, "\n") == if rest == [] then o else o + "\n" + Join(rest, "\n")
  {
    assert ([o] + rest)[1..] == rest;
  }

  lemma {:induction false} CoreOfLines(out: seq<string>)
    requires forall o | o in out :: Shaped(o)
    ensures Core(Join(KeptLines(out), "\n")) == EachAgain(out)
  {
    CoreOfNothing();
    hide Core, Shaped, Join;
    if out == [] {
      NothingJoined();
    } else {
      var o, kept := out[0], KeptLines(out[1..]);
      assert out == [o] + out[1..];
      KeptStep(o, out[1..]);
      CoreOfLines(out[1..]);
      if !("--" <= o) {
        CoreOfStatement(o, Join(kept, "\n"));
        JoinStep(o, kept);
        if kept == [] {
          NothingJoined();
        }
      } else {
        assert [] + kept == kept;
      }
    }
  }

  lemma NothingJoined()
    ensures Join<char>([], "\n") == ""
  {
  }

  lemma {:induction false} StatementsAgain(out: seq<string>)
    requires forall o | o in out :: Shaped(o)
    ensures Statements(Join(out, "\n")) == EachAgain(out)
  {
    if out == [] {
      assert Split("", '\n') == [""] && KeptLines([""]) == [""];
      CoreOfNothing();
    } else {
      forall o | o in out ensures '\n' !in o { ShapedStarts(o); }
      SplitJoined(out);
      CoreOfLines(out);
    }
  }

  /** The qualifier occurs somewhere. */
  ghost predicate Qualified(s: string) {
    exists i | 0 <= i <= |s| - |QUALIFIER| :: QUALIFIER <= s[i..]
  }

  lemma QualifiedTail(s: string)
    requires s != "" && !(QUALIFIER <= s)
    ensures Qualified(s) <==> Qualified(s[1..])
  {
    if Qualified(s) {
      var i :| 0 <= i <= |s| - |QUALIFIER| && QUALIFIER <= s[i..];
      assert s[0..] == s;
      assert s[i..] == s[1..][i - 1..];
    }
    if Qualified(s[1..]) {
      var i :| 0 <= i <= |s[1..]| - |QUALIFIER| && QUALIFIER <= s[1..][i..];
      assert s[i + 1..] == s[1..][i..];
    }
  }

  lemma QualifiedStart(s: string)
    requires QUALIFIER <= s
    ensures Qualified(s)
  {
    assert s[0..] == s;
  }

  lemma {:induction false} UnqualifiedShorter(s: string)
    ensures Qualified(s) ==> |Unqualified(s)| < |s|
    ensures !Qualified(s) ==> Unqualified(s) == s
  {
    QualifierChars();
    hide Qualified;
    if QUALIFIER <= s {
      QualifiedStart(s);
      assert Unqualified(s) == Unqualified(s[|QUALIFIER|..]);
    } else if s != "" {
      UnqualifiedShorter(s[1..]);
      QualifiedTail(s);
      assert s == [s[0]] + s[1..];
    } else {
      NotQualified();
    }
  }

  lemma NotQualified()
    ensures !Qualified("")
  {
    QualifierChars();
  }

  lemma {:induction false} UnqualifiedKeepsOut(s: string)
    requires ';' !in s
    ensures ';' !in Unqualified(s)
  {
    if QUALIFIER <= s {
      UnqualifiedKeepsOut(s[|QUALIFIER|..]);
    } else if s != "" {
      UnqualifiedKeepsOut(s[1..]);
    }
  }

  lemma {:induction false} CoreOfOne(b: string)
    requires ';' !in b
    ensures var z := Squeeze(Unqualified(b)); Core(b) == if z == "" then [] else [z + ";"]
  {
    UnqualifiedKeepsOut(b);
    SplitNone(Unqualified(b), ';');
    OneSentence(Unqualified(b));
    hide Squeeze, Unqualified, Sentences, Split;
  }

  lemma SqueezeIsShort(s: string)
    ensures |Squeeze(s)| <= |s|
  {
  }

  lemma SqueezedUnqualified(b: string)
    requires Join(Words(b), " ") == b
    ensures Squeeze(Unqualified(b)) == b <==> !Qualified(b)
  {
    UnqualifiedShorter(b);
    SqueezeIsShort(Unqualified(b));
    SqueezeJoinsWords(b);
    hide Squeeze, Unqualified, Qualified, Words, Join;
  }

  lemma AgainIsShort(o: string)
    requires Shaped(o)
    ensures |Again(o)| <= 1
    ensures Again(o) == [o] <==> !("--" <= o) && !Qualified(Body(o))
  {
    var b := Body(o);
    assert ';' !in b && b != "" && Join(Words(b), " ") == b;
    ShapedStarts(o);
    hide Core, Squeeze, Unqualified, Qualified, Words, Join, IsSpace, Body, Shaped;
    CoreOfOne(b);
    SqueezedUnqualified(b);
    SameStatement(Squeeze(Unqualified(b)), b);
  }

  lemma SameStatement(z: string, b: string)
    ensures z + ";" == b + ";" <==> z == b
  {
    assert (z + ";")[..|z|] == z && (b + ";")[..|b|] == b;
  }

  lemma {:induction false} AllAgain(out: seq<string>)
    requires forall o | o in out :: |Again(o)| <= 1
    ensures |EachAgain(out)| <= |out|
    ensures EachAgain(out) == out <==> forall o | o in out :: Again(o) == [o]
  {
    hide Again;
    if out != [] {
      var o, rest := out[0], out[1..];
      assert o in out;
      AllAgain(rest);
      assert out == [o] + rest;
      assert forall x | x in out :: x == o || x in rest;
      assert forall x | x in rest :: x in out;
      if |Again(o)| == 1 {
        assert (Again(o) + EachAgain(rest))[1..] == EachAgain(rest);
        assert (Again(o) + EachAgain(rest))[0] == Again(o)[0];
      }
    }
  }

  /**
   Writing the statements one per line and normalising again gives them back exactly when
   none of them starts like a comment and none still holds the qualifier.
   */
  lemma NormalFormIsStable(script: string)
    ensures var out := Statements(script);
      Statements(Join(out, "\n")) == out <==> (forall o | o in out :: !("--" <= o) && !Qualified(Body(o)))
  {
    hide Again, Shaped, Qualified, Core, WithoutComments;
    var out := Statements(script);
    StatementsAreShaped(script);
    StatementsAgain(out);
    forall o | o in out
      ensures |Again(o)| <= 1 && (Again(o) == [o] <==> !("--" <= o) && !Qualified(Body(o)))
    {
      AgainIsShort(o);
    }
    AllAgain(out);
  }

  // --- The gate on drift ----------------------------------------------------------------------------

  const WANTED := [
    "ALTER TABLE \"shops\" DROP CONSTRAINT \"shops_current_plan_fkey\";",
    "ALTER TABLE \"shops\" DROP CONSTRAINT \"shops_last_synced_plan_fkey\";"
  ]

  const KNOWN := [
    "ALTER TABLE \"supabase_configs\" DROP COLUMN \"supabase_db_password\";",
    "ALTER TABLE \"supabase_configs\" ADD COLUMN \"supabase_db_password\" TEXT;"
  ]

  const BEFORE_MIGRATING := ["ALTER TABLE \"plans\" DROP COLUMN \"max_orders\";"]

  datatype Phase = Pre | Post

  function Admitted(phase: Phase): seq<string> {
    WANTED + KNOWN + if phase.Pre? then BEFORE_MIGRATING else []
  }

  function Without(all: seq<string>, known: seq<string>): (r: seq<string>)
    ensures forall x :: x in r <==> x in all && x !in known
  {
    if all == [] then []
    else (if all[0] in known then [] else [all[0]]) + Without(all[1..], known)
  }

  /** `derivaInattesa`. */
  function UnexpectedDrift(script: string, phase: Phase): seq<string> {
    Without(Statements(script), Admitted(phase))
  }

  /** `derivaVolutaMancante`. */
  function MissingWanted(script: string): seq<string> {
    Without(WANTED, Statements(script))
  }

  lemma NothingLeft(all: seq<string>, known: seq<string>)
    ensures Without(all, known) == [] <==> forall x | x in all :: x in known
  {
    var r := Without(all, known);
    hide Without;
    if r != [] {
      assert r[0] in r;
    }
  }

  /** The two foreign keys that are not in the database on purpose. */
  ghost predicate IsDroppedKey(o: string) {
    || o == "ALTER TABLE \"shops\" DROP CONSTRAINT \"shops_current_plan_fkey\";"
    || o == "ALTER TABLE \"shops\" DROP CONSTRAINT \"shops_last_synced_plan_fkey\";"
  }

  /** The column of the database password, in the schema of the repository or not. */
  ghost predicate IsPasswordColumn(o: string) {
    || o == "ALTER TABLE \"supabase_configs\" DROP COLUMN \"supabase_db_password\";"
    || o == "ALTER TABLE \"supabase_configs\" ADD COLUMN \"supabase_db_password\" TEXT;"
  }

  /** What is still to come before the migrations run, and no drift to live with after them. */
  ghost predicate IsStillToCome(o: string) {
    o == "ALTER TABLE \"plans\" DROP COLUMN \"max_orders\";"
  }

  lemma AdmittedAreThese(o: string)
    ensures o in Admitted(Post) <==> IsDroppedKey(o) || IsPasswordColumn(o)
    ensures o in Admitted(Pre) <==> IsDroppedKey(o) || IsPasswordColumn(o) || IsStillToCome(o)
    ensures o in WANTED <==> IsDroppedKey(o)
    ensures IsStillToCome(o) ==> o !in Admitted(Post)
  {
    assert IsStillToCome(o) ==> |o| == 45;
    assert IsDroppedKey(o) || IsPasswordColumn(o) ==> |o| > 45;
  }

  /**
   The gate lets a script through exactly when its statements are among the admitted ones and
   both dropped keys are there; the drift that the migrations are about to remove is admitted
   before they run and refused after.
   */
  lemma GateIsExact(script: string)
    ensures UnexpectedDrift(script, Pre) == [] <==>
      forall o | o in Statements(script) :: IsDroppedKey(o) || IsPasswordColumn(o) || IsStillToCome(o)
    ensures UnexpectedDrift(script, Post) == [] <==>
      forall o | o in Statements(script) :: IsDroppedKey(o) || IsPasswordColumn(o)
    ensures forall o | o in Statements(script) && IsStillToCome(o) :: UnexpectedDrift(script, Post) != []
    ensures MissingWanted(script) == [] <==> forall o | IsDroppedKey(o) :: o in Statements(script)
  {
    NothingLeft(WANTED, Statements(script));
    NothingLeft(Statements(script), Admitted(Post));
    NothingLeft(Statements(script), Admitted(Pre));
    forall o: string
      ensures o in Admitted(Post) <==> IsDroppedKey(o) || IsPasswordColumn(o)
      ensures o in Admitted(Pre) <==> IsDroppedKey(o) || IsPasswordColumn(o) || IsStillToCome(o)
      ensures o in WANTED <==> IsDroppedKey(o)
      ensures IsStillToCome(o) ==> o !in Admitted(Post)
    {
      AdmittedAreThese(o);
    }
    hide Statements, Admitted, Without, WANTED, IsDroppedKey, IsPasswordColumn, IsStillToCome;
  }

  /** It looks at the words of the script alone, comment lines left aside. */
  lemma GateLooksAtWords(a: string, b: string, phase: Phase)
    requires Words(WithoutComments(a)) == Words(WithoutComments(b))
    ensures UnexpectedDrift(a, phase) == UnexpectedDrift(b, phase) && MissingWanted(a) == MissingWanted(b)
  {
    LayoutDoesNotMatter(a, b);
    hide Statements, Words, Admitted, WithoutComments;
  }
}
