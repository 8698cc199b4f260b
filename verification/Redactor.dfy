/** The filter that takes what identifies a database out of a migration's output: `oscura`. */
module Redactor {
  import opened Units

  /** Shorter pieces are left alone. */
  const MINIMUM := 6

  const STAR: Unit := 0x2A

  const MARK: JsString := [STAR, STAR, STAR]

  predicate Within(piece: JsString, text: JsString) {
    exists i | 0 <= i <= |text| - |piece| :: At(piece, text, i)
  }

  predicate At(piece: JsString, text: JsString, i: nat)
    requires i + |piece| <= |text|
  {
    text[i..i + |piece|] == piece
  }

  /** No mark inside and no star at its ends: nothing of the piece can be part of a mark. */
  ghost predicate ClearOfMarks(piece: JsString) {
    piece != [] && piece[0] != STAR && piece[|piece| - 1] != STAR && !Within(MARK, piece)
  }

  // --- One replacement --------------------------------------------------------------

  /** The stretches between the occurrences, taken leftmost and without overlap. */
  function SplitBy(text: JsString, piece: JsString): (stretches: seq<JsString>)
    requires piece != []
    ensures stretches != []
    decreases |text|
  {
    if piece <= text then [[]] + SplitBy(text[|piece|..], piece)
    else if text == [] then [[]]
    else
      var rest := SplitBy(text[1..], piece);
      [[text[0]] + rest[0]] + rest[1..]
  }

  function JoinBy(stretches: seq<JsString>, mark: JsString): JsString
    requires stretches != []
  {
    if |stretches| == 1 then stretches[0] else stretches[0] + mark + JoinBy(stretches[1..], mark)
  }

  /** The same text, scanned once. */
  function Replace(text: JsString, piece: JsString): JsString
    requires piece != []
    decreases |text|
  {
    if piece <= text then MARK + Replace(text[|piece|..], piece)
    else if text == [] then []
    else [text[0]] + Replace(text[1..], piece)
  }

  lemma JoinByStep(first: JsString, rest: seq<JsString>, mark: JsString)
    ensures rest != [] ==> JoinBy([first] + rest, mark) == first + mark + JoinBy(rest, mark)
    ensures rest == [] ==> JoinBy([first] + rest, mark) == first
  {
    assert ([first] + rest)[1..] == rest;
  }

  lemma Reassociated(a: JsString, b: JsString, c: JsString, d: JsString)
    ensures a + b + c + d == a + (b + c + d)
    ensures [] + c + d == c + d
  {
  }

  /** What the first stretch begins with is what the joined text begins with. */
  lemma JoinByHead(c: Unit, rest: seq<JsString>, mark: JsString)
    requires rest != []
    ensures JoinBy([[c] + rest[0]] + rest[1..], mark) == [c] + JoinBy(rest, mark)
    ensures JoinBy([[]] + rest, mark) == mark + JoinBy(rest, mark)
  {
    hide JoinBy;
    var first, others := rest[0], rest[1..];
    assert rest == [first] + others;
    JoinByStep(first, others, mark);
    JoinByStep([c] + first, others, mark);
    JoinByStep([], rest, mark);
    Reassociated([], [], mark, JoinBy(rest, mark));
    if others != [] {
      Reassociated([c], first, mark, JoinBy(others, mark));
    }
  }

  lemma {:induction false} SplitAndJoinReplace(text: JsString, piece: JsString)
    requires piece != []
    ensures JoinBy(SplitBy(text, piece), MARK) == Replace(text, piece)
    decreases |text|
  {
    hide JoinBy;
    if piece <= text {
      SplitAndJoinReplace(text[|piece|..], piece);
      JoinByHead(STAR, SplitBy(text[|piece|..], piece), MARK);
    } else if text != [] {
      SplitAndJoinReplace(text[1..], piece);
      JoinByHead(text[0], SplitBy(text[1..], piece), MARK);
    } else {
      JoinByNothing();
    }
  }

  lemma JoinByNothing()
    ensures JoinBy([[]], MARK) == []
  {
  }

  lemma WithinTail(piece: JsString, text: JsString, n: nat)
    requires n <= |text| && Within(piece, text[n..])
    ensures Within(piece, text)
  {
    var i :| 0 <= i <= |text[n..]| - |piece| && At(piece, text[n..], i);
    assert text[n..][i..i + |piece|] == text[n + i..n + i + |piece|];
    assert At(piece, text, n + i);
  }

  /** The end of a piece that is clear of marks. */
  ghost predicate ClearEnd(start: JsString) {
    (start != [] ==> start[|start| - 1] != STAR) && !Within(MARK, start)
  }

  lemma ClearEndHasNoMark(start: JsString, tail: JsString)
    requires start != [] && ClearEnd(start)
    ensures !(start <= MARK + tail)
  {
    var n := |start|;
    if n >= 3 {
      assert !At(MARK, start, 0);
      assert start[..3] != MARK == (MARK + tail)[..3];
    } else {
      assert (MARK + tail)[n - 1] == MARK[n - 1] == STAR;
    }
  }

  lemma ClearEndShrinks(start: JsString)
    requires start != [] && ClearEnd(start)
    ensures ClearEnd(start[1..])
  {
    var rest := start[1..];
    forall i | 0 <= i <= |rest| - |MARK| ensures !At(MARK, rest, i) {
      assert rest[i..i + |MARK|] == start[i + 1..i + 1 + |MARK|];
      assert !At(MARK, start, i + 1);
    }
  }

  /** A start of the result that no mark can be part of is a start of the text. */
  lemma {:induction false} StartIsKept(text: JsString, piece: JsString, start: JsString)
    requires piece != [] && ClearEnd(start) && start <= Replace(text, piece)
    ensures start <= text
    decreases |text|
  {
    if start != [] && text != [] {
      if piece <= text {
        ClearEndHasNoMark(start, Replace(text[|piece|..], piece));
      } else {
        var rest := Replace(text[1..], piece);
        assert Replace(text, piece) == [text[0]] + rest;
        assert start[1..] <= rest by {
          assert forall i | 0 <= i < |start| - 1 :: start[i + 1] == Replace(text, piece)[i + 1] == rest[i];
        }
        ClearEndShrinks(start);
        StartIsKept(text[1..], piece, start[1..]);
        assert start == [text[0]] + start[1..];
      }
    } else if text == [] {
      assert Replace(text, piece) == [];
    }
  }

  /** An occurrence past the head is an occurrence in the tail. */
  lemma InTail(q: JsString, head: JsString, tail: JsString, i: nat)
    requires |head| <= i && i + |q| <= |head + tail| && At(q, head + tail, i)
    ensures Within(q, tail)
  {
    assert (head + tail)[i..i + |q|] == tail[i - |head|..i - |head| + |q|];
    assert At(q, tail, i - |head|);
  }

  /** An occurrence of a text that begins with no star does not start in the mark. */
  lemma NotInMark(q: JsString, tail: JsString, i: nat)
    requires q != [] && q[0] != STAR && i + |q| <= |MARK + tail| && At(q, MARK + tail, i)
    ensures i >= 3
  {
    assert (MARK + tail)[i] == (MARK + tail)[i..i + |q|][0] == q[0];
    assert forall k | 0 <= k < 3 :: (MARK + tail)[k] == MARK[k] == STAR;
  }

  /** What occurs after a replacement occurred before it, and is not the piece replaced. */
  lemma {:induction false} NothingNewOccurs(text: JsString, piece: JsString, q: JsString)
    requires piece != [] && ClearOfMarks(q) && Within(q, Replace(text, piece))
    ensures Within(q, text) && q != piece
    decreases |text|
  {
    var result := Replace(text, piece);
    var i :| 0 <= i <= |result| - |q| && At(q, result, i);
    assert q != [] && q[0] != STAR && ClearEnd(q);
    hide ClearOfMarks, ClearEnd, At, Within;
    if piece <= text {
      var rest := Replace(text[|piece|..], piece);
      NotInMark(q, rest, i);
      InTail(q, MARK, rest, i);
      NothingNewOccurs(text[|piece|..], piece, q);
      WithinTail(q, text, |piece|);
    } else if i > 0 {
      InTail(q, [text[0]], Replace(text[1..], piece), i);
      NothingNewOccurs(text[1..], piece, q);
      WithinTail(q, text, 1);
    } else {
      StartsThere(q, result);
      StartIsKept(text, piece, q);
      OccursAtStart(q, text);
    }
  }

  lemma StartsThere(q: JsString, text: JsString)
    requires |q| <= |text| && At(q, text, 0)
    ensures q <= text
  {
  }

  lemma OccursAtStart(q: JsString, text: JsString)
    requires q <= text
    ensures Within(q, text)
  {
    assert At(q, text, 0);
  }

  lemma StartIsWithin(piece: JsString, text: JsString)
    ensures piece <= text ==> Within(piece, text)
  {
    if piece <= text {
      OccursAtStart(piece, text);
    }
  }

  lemma TailIsWithin(piece: JsString, text: JsString)
    ensures text != [] && Within(piece, text[1..]) ==> Within(piece, text)
  {
    if text != [] && Within(piece, text[1..]) {
      WithinTail(piece, text, 1);
    }
  }

  lemma {:induction false} NothingToReplace(text: JsString, piece: JsString)
    requires piece != [] && !Within(piece, text)
    ensures Replace(text, piece) == text
    decreases |text|
  {
    StartIsWithin(piece, text);
    if text != [] {
      TailIsWithin(piece, text);
      NothingToReplace(text[1..], piece);
    }
  }

  // --- The pieces in order ---------------------------------------------------------------

  /** The first of each, in the order in which they came. */
  function Distinct(pieces: seq<JsString>): (d: seq<JsString>)
    ensures forall p :: p in d <==> p in pieces
    ensures forall i, j | 0 <= i < j < |d| :: d[i] != d[j]
  {
    if pieces == [] then []
    else
      var last := pieces[|pieces| - 1];
      var d := Distinct(pieces[..|pieces| - 1]);
      if last in d then d else d + [last]
  }

  function LongEnough(pieces: seq<JsString>): (l: seq<JsString>)
    ensures forall p :: p in l <==> p in pieces && |p| >= 6
    ensures (forall i, j | 0 <= i < j < |pieces| :: pieces[i] != pieces[j]) ==> forall i, j | 0 <= i < j < |l| :: l[i] != l[j]
  {
    if pieces == [] then []
    else
      var last := pieces[|pieces| - 1];
      var l := LongEnough(pieces[..|pieces| - 1]);
      if |last| >= MINIMUM then l + [last] else l
  }

  ghost predicate LongestFirst(pieces: seq<JsString>) {
    forall i, j | 0 <= i < j < |pieces| :: |pieces[i]| >= |pieces[j]|
  }

  /** After every piece that is at least as long. */
  function Insert(pieces: seq<JsString>, p: JsString): (r: seq<JsString>)
    ensures multiset(r) == multiset(pieces) + multiset{p}
  {
    if pieces == [] || |pieces[|pieces| - 1]| >= |p| then pieces + [p]
    else
      var last := pieces[|pieces| - 1];
      assert pieces == pieces[..|pieces| - 1] + [last];
      Insert(pieces[..|pieces| - 1], p) + [last]
  }

  /** Longest first; pieces of one length keep their order. */
  function Sorted(pieces: seq<JsString>): (r: seq<JsString>)
    ensures multiset(r) == multiset(pieces)
  {
    if pieces == [] then []
    else
      assert pieces == pieces[..|pieces| - 1] + [pieces[|pieces| - 1]];
      Insert(Sorted(pieces[..|pieces| - 1]), pieces[|pieces| - 1])
  }

  ghost predicate AtLeast(pieces: seq<JsString>, n: nat) {
    forall i | 0 <= i < |pieces| :: |pieces[i]| >= n
  }

  lemma AppendKeepsOrder(pieces: seq<JsString>, p: JsString)
    requires LongestFirst(pieces) && AtLeast(pieces, |p|)
    ensures LongestFirst(pieces + [p])
  {
  }

  lemma InsertAtLeast(pieces: seq<JsString>, p: JsString, n: nat)
    requires AtLeast(pieces, n) && |p| >= n
    ensures AtLeast(Insert(pieces, p), n)
  {
    var r := Insert(pieces, p);
    forall i | 0 <= i < |r| ensures |r[i]| >= n {
      assert r[i] in multiset(pieces) + multiset{p};
    }
  }

  lemma {:induction false} InsertKeepsOrder(pieces: seq<JsString>, p: JsString)
    requires LongestFirst(pieces)
    ensures LongestFirst(Insert(pieces, p))
  {
    if pieces == [] || |pieces[|pieces| - 1]| >= |p| {
      AppendKeepsOrder(pieces, p);
    } else {
      var init, last := pieces[..|pieces| - 1], pieces[|pieces| - 1];
      InsertKeepsOrder(init, p);
      InsertAtLeast(init, p, |last|);
      AppendKeepsOrder(Insert(init, p), last);
    }
  }

  lemma {:induction false} SortedIsInOrder(pieces: seq<JsString>)
    ensures LongestFirst(Sorted(pieces))
  {
    if pieces != [] {
      SortedIsInOrder(pieces[..|pieces| - 1]);
      InsertKeepsOrder(Sorted(pieces[..|pieces| - 1]), pieces[|pieces| - 1]);
    }
  }

  /** The pieces of one length, in order. */
  function OfLength(pieces: seq<JsString>, n: nat): seq<JsString> {
    if pieces == [] then []
    else
      var last := pieces[|pieces| - 1];
      OfLength(pieces[..|pieces| - 1], n) + if |last| == n then [last] else []
  }

  lemma OfLengthStep(pieces: seq<JsString>, p: JsString, n: nat)
    ensures OfLength(pieces + [p], n) == OfLength(pieces, n) + if |p| == n then [p] else []
  {
    assert (pieces + [p])[..|pieces|] == pieces;
  }

  lemma {:induction false} InsertIsStable(pieces: seq<JsString>, p: JsString, n: nat)
    ensures OfLength(Insert(pieces, p), n) == OfLength(pieces + [p], n)
  {
    OfLengthStep(pieces, p, n);
    if pieces != [] && |pieces[|pieces| - 1]| < |p| {
      var init, last := pieces[..|pieces| - 1], pieces[|pieces| - 1];
      InsertIsStable(init, p, n);
      OfLengthStep(init, p, n);
      OfLengthStep(Insert(init, p), last, n);
    }
  }

  lemma {:induction false} SortedIsStable(pieces: seq<JsString>, n: nat)
    ensures OfLength(Sorted(pieces), n) == OfLength(pieces, n)
  {
    if pieces != [] {
      var init, last := pieces[..|pieces| - 1], pieces[|pieces| - 1];
      SortedIsStable(init, n);
      InsertIsStable(Sorted(init), last, n);
      OfLengthStep(Sorted(init), last, n);
    }
  }

  function InOrder(pieces: seq<JsString>): seq<JsString> {
    Sorted(LongEnough(Distinct(pieces)))
  }

  /** In order: each of the pieces that are long enough, once, longest first, those of one length as they came. */
  lemma OrderOfPieces(pieces: seq<JsString>)
    ensures var order := InOrder(pieces);
      && LongestFirst(order)
      && (forall p :: p in order <==> p in pieces && |p| >= 6)
      && (forall i, j | 0 <= i < j < |order| :: order[i] != order[j])
      && (forall n: nat :: OfLength(order, n) == OfLength(LongEnough(Distinct(pieces)), n))
  {
    var before := LongEnough(Distinct(pieces));
    var order := InOrder(pieces);
    SortedIsInOrder(before);
    forall n: nat ensures OfLength(order, n) == OfLength(before, n) {
      SortedIsStable(before, n);
    }
    SameElements(order, before);
    SameDistinctness(order, before);
  }

  lemma SameElements(a: seq<JsString>, b: seq<JsString>)
    requires multiset(a) == multiset(b)
    ensures forall p :: p in a <==> p in b
  {
    assert forall p :: (p in a <==> p in multiset(a)) && (p in b <==> p in multiset(b));
  }

  lemma {:induction false} DistinctCounts(s: seq<JsString>)
    requires forall i, j | 0 <= i < j < |s| :: s[i] != s[j]
    ensures forall p :: multiset(s)[p] <= 1
  {
    if s != [] {
      var init, last := s[..|s| - 1], s[|s| - 1];
      DistinctCounts(init);
      assert s == init + [last];
      assert last !in init;
      assert multiset(s) == multiset(init) + multiset{last};
      assert multiset(init)[last] == 0;
    }
  }

  lemma SameDistinctness(a: seq<JsString>, b: seq<JsString>)
    requires multiset(a) == multiset(b) && forall i, j | 0 <= i < j < |b| :: b[i] != b[j]
    ensures forall i, j | 0 <= i < j < |a| :: a[i] != a[j]
  {
    DistinctCounts(b);
    forall i, j | 0 <= i < j < |a| ensures a[i] != a[j] {
      var before := a[..j];
      assert a == before + [a[j]] + a[j + 1..];
      assert multiset(a)[a[j]] >= multiset(before)[a[j]] + 1;
      assert a[j] !in before && before[i] == a[i];
    }
  }

  // --- The filter --------------------------------------------------------------------------

  function ReplaceAll(text: JsString, order: seq<JsString>): JsString
    requires forall i | 0 <= i < |order| :: order[i] != []
  {
    if order == [] then text
    else Replace(ReplaceAll(text, order[..|order| - 1]), order[|order| - 1])
  }

  lemma OrderHasNoBlank(pieces: seq<JsString>)
    ensures forall i | 0 <= i < |InOrder(pieces)| :: InOrder(pieces)[i] != []
  {
    OrderOfPieces(pieces);
    assert forall i | 0 <= i < |InOrder(pieces)| :: InOrder(pieces)[i] in InOrder(pieces);
  }

  function Redacted(text: JsString, pieces: seq<JsString>): JsString {
    OrderHasNoBlank(pieces);
    ReplaceAll(text, InOrder(pieces))
  }

  /** No piece that is clear of marks survives its own replacement or a later one. */
  lemma {:induction false} NoPieceSurvives(text: JsString, order: seq<JsString>, q: JsString)
    requires forall i | 0 <= i < |order| :: order[i] != []
    requires q in order && ClearOfMarks(q)
    ensures !Within(q, ReplaceAll(text, order))
  {
    var last, before := order[|order| - 1], ReplaceAll(text, order[..|order| - 1]);
    if Within(q, Replace(before, last)) {
      NothingNewOccurs(before, last, q);
      assert q in order[..|order| - 1];
      NoPieceSurvives(text, order[..|order| - 1], q);
    }
  }

  lemma {:induction false} NothingToRedact(text: JsString, order: seq<JsString>)
    requires forall i | 0 <= i < |order| :: order[i] != []
    requires forall p | p in order :: !Within(p, text)
    ensures ReplaceAll(text, order) == text
  {
    if order != [] {
      NothingToRedact(text, order[..|order| - 1]);
      NothingToReplace(text, order[|order| - 1]);
    }
  }

  lemma ReplaceOneMore(text: JsString, order: seq<JsString>, i: nat)
    requires i < |order| && forall k | 0 <= k < |order| :: order[k] != []
    ensures ReplaceAll(text, order[..i + 1]) == Replace(ReplaceAll(text, order[..i]), order[i])
  {
    assert order[..i + 1][..i] == order[..i];
  }

  /** `oscura`: the loop over the pieces, longest first. */
  method Redact(text: JsString, pieces: seq<JsString>) returns (result: JsString)
    ensures result == Redacted(text, pieces)
    ensures forall q | q in pieces && |q| >= 6 && ClearOfMarks(q) :: !Within(q, result)
  {
    var order := InOrder(pieces);
    OrderHasNoBlank(pieces);
    OrderOfPieces(pieces);
    hide InOrder, LongestFirst, Within, Replace, SplitBy, JoinBy;
    result := text;
    for i := 0 to |order|
      invariant result == ReplaceAll(text, order[..i])
    {
      SplitAndJoinReplace(result, order[i]);
      result := JoinBy(SplitBy(result, order[i]), MARK);
      ReplaceOneMore(text, order, i);
    }
    assert order[..|order|] == order;
    forall q | q in pieces && |q| >= 6 && ClearOfMarks(q) ensures !Within(q, result) {
      NoPieceSurvives(text, order, q);
    }
  }

  /** A text without any of the pieces is left as it is. */
  lemma OtherTextIsKept(text: JsString, pieces: seq<JsString>)
    requires forall p | p in pieces && |p| >= 6 :: !Within(p, text)
    ensures Redacted(text, pieces) == text
  {
    OrderHasNoBlank(pieces);
    OrderOfPieces(pieces);
    NothingToRedact(text, InOrder(pieces));
  }

  /** Redacting the result again changes nothing. */
  ghost predicate OnceIsEnough(text: JsString, pieces: seq<JsString>) {
    Redacted(Redacted(text, pieces), pieces) == Redacted(text, pieces)
  }

  /** Once more changes nothing. */
  lemma SecondPassChangesNothing(text: JsString, pieces: seq<JsString>)
    requires forall p | p in pieces && |p| >= 6 :: ClearOfMarks(p)
    ensures OnceIsEnough(text, pieces)
  {
    OrderHasNoBlank(pieces);
    OrderOfPieces(pieces);
    forall p | p in pieces && |p| >= 6 ensures !Within(p, Redacted(text, pieces)) {
      NoPieceSurvives(text, InOrder(pieces), p);
    }
    OtherTextIsKept(Redacted(text, pieces), pieces);
  }

  // --- Which pieces can survive -------------------------------------------------------------

  /** What comes before the first occurrence stays. */
  lemma {:induction false} UpToFirst(text: JsString, piece: JsString, n: nat)
    requires piece != [] && n <= |text| && forall i | 0 <= i < n :: !(piece <= text[i..])
    ensures Replace(text, piece) == text[..n] + Replace(text[n..], piece)
    decreases n
  {
    if n == 0 {
      assert text[0..] == text && text[..0] == [];
    } else {
      assert text[0..] == text;
      forall i | 0 <= i < n - 1 ensures !(piece <= text[1..][i..]) {
        assert text[1..][i..] == text[i + 1..];
      }
      UpToFirst(text[1..], piece, n - 1);
      assert text[1..][n - 1..] == text[n..];
      assert text[..n] == [text[0]] + text[1..][..n - 1];
    }
  }

  /** The leftmost occurrence becomes three stars, the text before it stays, and the text after it is looked through alone. */
  lemma FirstOccurrenceBecomesStars(before: JsString, piece: JsString, after: JsString)
    requires piece != [] && forall i | 0 <= i < |before| :: !(piece <= (before + piece + after)[i..])
    ensures Replace(before + piece + after, piece) == before + ['*' as int, '*' as int, '*' as int] + Replace(after, piece)
  {
    var text := before + piece + after;
    UpToFirst(text, piece, |before|);
    assert text[..|before|] == before && text[|before|..] == piece + after;
    assert (piece + after)[|piece|..] == after;
  }

  /** Clear of marks is: no star at either end, and no three stars in a row. */
  lemma ClearMeansNoStars(q: JsString)
    ensures ClearOfMarks(q) <==>
      && q != [] && q[0] != '*' as int && q[|q| - 1] != '*' as int
      && !Within(['*' as int, '*' as int, '*' as int], q)
  {
    hide Within;
    assert MARK == ['*' as int, '*' as int, '*' as int];
  }

  /** A short rest, with the piece itself before it. */
  lemma {:induction false} PieceThenRest(piece: JsString, rest: JsString)
    requires |rest| < |piece|
    ensures Replace(piece + rest, piece) == MARK + rest
  {
    assert (piece + rest)[|piece|..] == rest;
    LongerIsNotWithin(piece, rest);
    NothingToReplace(rest, piece);
  }

  lemma OccursInside(a: JsString, p: JsString, b: JsString)
    ensures Within(p, a + p + b)
  {
    assert (a + p + b)[|a|..|a| + |p|] == p;
    assert At(p, a + p + b, |a|);
  }

  /** A star in front: the mark's last star takes its place. */
  lemma StarInFrontSurvives(p: JsString)
    requires p != [] && p[0] == STAR
    ensures Within(p, Replace(p + p[1..], p))
  {
    PieceThenRest(p, p[1..]);
    hide Replace;
    var result := MARK + p[1..];
    assert result[2..2 + |p|] == [STAR] + p[1..] == p;
    assert At(p, result, 2);
  }

  lemma NoEarlierOccurrence(p: JsString, k: nat)
    requires p != [] && p[0] != STAR && p[|p| - 1] == STAR && k < |p| - 1
    ensures !(p <= (p[..|p| - 1] + p)[k..])
  {
    var text := p[..|p| - 1] + p;
    assert text[k..][0] == text[k] == p[k];
    assert text[k..][|p| - 1] == text[k + |p| - 1] == p[k];
  }

  lemma {:induction false} PieceAfterItsFront(p: JsString)
    requires p != [] && p[0] != STAR && p[|p| - 1] == STAR
    ensures Replace(p[..|p| - 1] + p, p) == p[..|p| - 1] + MARK
  {
    var front := p[..|p| - 1];
    var text := front + p;
    forall k | 0 <= k < |front| ensures !(p <= text[k..]) {
      NoEarlierOccurrence(p, k);
    }
    hide Replace;
    UpToFirst(text, p, |front|);
    assert text[..|front|] == front && text[|front|..] == p && p + [] == p && MARK + [] == MARK;
    PieceThenRest(p, []);
  }

  /** A star at the end: the mark's first star takes its place. */
  lemma {:induction false} StarAtTheEndSurvives(p: JsString)
    requires p != [] && p[0] != STAR && p[|p| - 1] == STAR
    ensures Within(p, Replace(p[..|p| - 1] + p, p))
  {
    hide Replace;
    PieceAfterItsFront(p);
    FrontAndMark(p);
    assert At(p, p[..|p| - 1] + MARK, 0);
  }

  lemma FrontAndMark(p: JsString)
    requires p != [] && p[|p| - 1] == STAR
    ensures (p[..|p| - 1] + MARK)[0..|p|] == p
  {
  }

  /** The first mark inside a piece. */
  lemma FirstMark(p: JsString) returns (i: nat)
    requires Within(MARK, p)
    ensures i + |MARK| <= |p| && At(MARK, p, i)
    ensures forall k: nat | k < i :: !At(MARK, p, k)
  {
    i := 0;
    while !At(MARK, p, i)
      invariant i + |MARK| <= |p|
      invariant exists j | i <= j <= |p| - |MARK| :: At(MARK, p, j)
      invariant forall k: nat | k < i :: !At(MARK, p, k)
      decreases |p| - i
    {
      i := i + 1;
    }
  }

  /** The piece at k in the text has its mark where the text has the piece's own. */
  lemma EarlierMark(p: JsString, i: nat, k: nat)
    requires i + |MARK| <= |p| && At(MARK, p, i) && k < i
    ensures p <= (p[..i] + p + p[i + |MARK|..])[k..] ==> At(MARK, p, k)
  {
    var text := p[..i] + p + p[i + |MARK|..];
    if p <= text[k..] {
      var mark := p[i..i + |MARK|];
      assert mark[0] == p[i] && mark[1] == p[i + 1] && mark[2] == p[i + 2];
      assert text[k + i] == p[k] && text[k + i + 1] == p[k + 1] && text[k + i + 2] == p[k + 2];
      assert text[k..][i] == p[i] && text[k..][i + 1] == p[i + 1] && text[k..][i + 2] == p[i + 2];
      assert p[k..k + |MARK|] == MARK;
    }
  }

  lemma {:induction false} PieceAroundItself(p: JsString, i: nat)
    requires i + |MARK| <= |p| && At(MARK, p, i) && forall h: nat | h < i :: !At(MARK, p, h)
    ensures Replace(p[..i] + p + p[i + |MARK|..], p) == p[..i] + (MARK + p[i + |MARK|..])
  {
    hide Replace, At;
    var u, v := p[..i], p[i + |MARK|..];
    var text := u + p + v;
    forall k | 0 <= k < i ensures !(p <= text[k..]) {
      EarlierMark(p, i, k);
    }
    UpToFirst(text, p, i);
    Around(u, p, v);
    PieceThenRest(p, v);
  }

  lemma Around(u: JsString, p: JsString, v: JsString)
    ensures (u + p + v)[..|u|] == u && (u + p + v)[|u|..] == p + v
  {
  }

  /** A mark inside: the replacement puts it back between the two ends. */
  lemma MarkInsideSurvives(p: JsString) returns (text: JsString)
    requires Within(MARK, p)
    ensures Replace(text, p) == p
  {
    var i := FirstMark(p);
    text := p[..i] + p + p[i + |MARK|..];
    PieceAroundItself(p, i);
    hide Replace, Within;
    assert p == p[..i] + (p[i..i + |MARK|] + p[i + |MARK|..]);
  }

  /** A text in which a piece that is not clear of marks survives its own replacement. */
  lemma SurvivesItself(p: JsString) returns (text: JsString)
    requires p != [] && !ClearOfMarks(p)
    ensures Within(p, Replace(text, p))
  {
    if p[0] == STAR {
      StarInFrontSurvives(p);
      text := p + p[1..];
    } else if p[|p| - 1] == STAR {
      StarAtTheEndSurvives(p);
      text := p[..|p| - 1] + p;
    } else {
      text := MarkInsideSurvives(p);
      OccursInside([], p, []);
      assert [] + p + [] == p;
    }
  }

  /** A piece is gone after its own replacement, from every text, exactly when it is clear of marks. */
  lemma GoneExactlyWhenClear(p: JsString)
    requires p != []
    ensures (forall text: JsString :: !Within(p, Replace(text, p))) <==> ClearOfMarks(p)
  {
    if ClearOfMarks(p) {
      forall text: JsString ensures !Within(p, Replace(text, p)) {
        GoneWhenClear(text, p);
      }
    } else {
      var text := SurvivesItself(p);
      hide Within, Replace;
      assert exists t: JsString :: Within(p, Replace(t, p));
    }
  }

  lemma GoneWhenClear(text: JsString, p: JsString)
    requires ClearOfMarks(p)
    ensures !Within(p, Replace(text, p))
  {
    if Within(p, Replace(text, p)) {
      NothingNewOccurs(text, p, p);
    }
  }

  lemma OnlyPiece(text: JsString, p: JsString)
    requires |p| >= 6
    ensures Redacted(text, [p]) == Replace(text, p)
  {
    assert |[p][..0]| == 0 && ReplaceAll(text, [p][..0]) == text;
    assert Distinct([p]) == [p] && LongEnough([p]) == [p] && Sorted([p]) == [p];
  }

  /** A long piece never survives, in whatever text and whatever the other pieces, exactly when it is clear of marks. */
  lemma NeverSurvivesExactlyWhenClear(q: JsString)
    requires |q| >= 6
    ensures (forall text: JsString, pieces: seq<JsString> | q in pieces :: !Within(q, Redacted(text, pieces))) <==> ClearOfMarks(q)
  {
    if ClearOfMarks(q) {
      forall text: JsString, pieces: seq<JsString> | q in pieces ensures !Within(q, Redacted(text, pieces)) {
        OrderHasNoBlank(pieces);
        OrderOfPieces(pieces);
        NoPieceSurvives(text, InOrder(pieces), q);
      }
    } else {
      var text := SurvivesItself(q);
      OnlyPiece(text, q);
      assert q in [q];
    }
  }

  // --- When a second pass has something to do --------------------------------------------------

  lemma {:induction false} ReplaceShortens(text: JsString, piece: JsString)
    requires |piece| >= 6
    ensures |Replace(text, piece)| <= |text|
    ensures Within(piece, text) ==> |Replace(text, piece)| < |text|
    decreases |text|
  {
    if piece <= text {
      ReplaceShortens(text[|piece|..], piece);
    } else if text != [] {
      ReplaceShortens(text[1..], piece);
      HeadIsNotIt(piece, text);
    } else {
      LongerIsNotWithin(piece, text);
    }
  }

  lemma HeadIsNotIt(piece: JsString, text: JsString)
    ensures text != [] && !(piece <= text) && Within(piece, text) ==> Within(piece, text[1..])
  {
    if text != [] && !(piece <= text) && Within(piece, text) {
      var i :| 0 <= i <= |text| - |piece| && At(piece, text, i);
      assert text[0..|piece|] == text[..|piece|];
      InTail(piece, [text[0]], text[1..], i);
    }
  }

  lemma {:induction false} ReplaceAllShortens(text: JsString, order: seq<JsString>)
    requires forall i | 0 <= i < |order| :: |order[i]| >= 6
    ensures |ReplaceAll(text, order)| <= |text|
    ensures |ReplaceAll(text, order)| == |text| ==> forall p | p in order :: !Within(p, text)
  {
    if order != [] {
      var init, last := order[..|order| - 1], order[|order| - 1];
      ReplaceAllShortens(text, init);
      ReplaceShortens(ReplaceAll(text, init), last);
      assert order == init + [last];
      if |ReplaceAll(text, order)| == |text| {
        NothingToRedact(text, init);
      }
    }
  }

  /** Redacting leaves a text alone exactly when none of the long pieces is in it. */
  lemma KeptExactlyWhenClean(text: JsString, pieces: seq<JsString>)
    ensures Redacted(text, pieces) == text <==> forall p | p in pieces && |p| >= 6 :: !Within(p, text)
  {
    OrderHasNoBlank(pieces);
    OrderOfPieces(pieces);
    var order := InOrder(pieces);
    assert forall i | 0 <= i < |order| :: order[i] in order;
    ReplaceAllShortens(text, order);
    if forall p | p in pieces && |p| >= 6 :: !Within(p, text) {
      OtherTextIsKept(text, pieces);
    }
  }

  ghost predicate DrawnFrom(pieces: seq<JsString>, allowed: set<JsString>) {
    forall p | p in pieces :: p in allowed
  }

  /** A text for which redacting a piece that is not clear of marks is not done after once. */
  lemma NotDoneAfterOnce(p: JsString) returns (text: JsString)
    requires |p| >= 6 && !ClearOfMarks(p)
    ensures !OnceIsEnough(text, [p])
  {
    text := SurvivesItself(p);
    hide ClearOfMarks, Within, Replace, Redacted;
    OnlyPiece(text, p);
    KeptExactlyWhenClean(Redacted(text, [p]), [p]);
    assert p in [p];
  }

  /**
   Redacting twice is redacting once, for every text and every list drawn from some
   pieces, exactly when the long ones among them are clear of marks.
   */
  lemma SecondPassExactlyWhenClear(allowed: set<JsString>)
    ensures (forall text: JsString, pieces: seq<JsString> | DrawnFrom(pieces, allowed) :: OnceIsEnough(text, pieces))
        <==> (forall p | p in allowed && |p| >= 6 :: ClearOfMarks(p))
  {
    hide ClearOfMarks, OnceIsEnough;
    if forall p | p in allowed && |p| >= 6 :: ClearOfMarks(p) {
      forall text: JsString, pieces: seq<JsString> | DrawnFrom(pieces, allowed) ensures OnceIsEnough(text, pieces) {
        SecondPassChangesNothing(text, pieces);
      }
    } else {
      var p :| p in allowed && |p| >= 6 && !ClearOfMarks(p);
      var text := NotDoneAfterOnce(p);
      assert DrawnFrom([p], allowed);
    }
  }

  lemma LongerIsNotWithin(p: JsString, text: JsString)
    requires |p| > |text| || (|p| == |text| && p != text)
    ensures !Within(p, text)
  {
    assert text[0..|text|] == text;
    assert forall i | 0 <= i <= |text| - |p| :: !At(p, text, i);
  }

  lemma {:induction false} MarkStays(text: JsString, order: seq<JsString>, k: nat)
    requires k <= |order| && forall i | 0 <= i < |order| :: |order[i]| >= 6
    requires ReplaceAll(text, order[..k]) == MARK
    ensures ReplaceAll(text, order) == MARK
  {
    if k == |order| {
      assert order[..k] == order;
    } else {
      var init, last := order[..|order| - 1], order[|order| - 1];
      assert init[..k] == order[..k];
      MarkStays(text, init, k);
      LongerIsNotWithin(last, MARK);
      NothingToReplace(MARK, last);
    }
  }

  lemma LongerPiecesLeaveIt(order: seq<JsString>, k: nat)
    requires k < |order| && LongestFirst(order) && forall i | 0 <= i < |order| :: |order[i]| >= 6
    requires forall i, j | 0 <= i < j < |order| :: order[i] != order[j]
    ensures ReplaceAll(order[k], order[..k]) == order[k]
  {
    forall p | p in order[..k] ensures !Within(p, order[k]) {
      var i :| 0 <= i < k && order[i] == p;
      LongerIsNotWithin(p, order[k]);
    }
    NothingToRedact(order[k], order[..k]);
  }

  lemma ReplacesItself(piece: JsString)
    requires piece != []
    ensures Replace(piece, piece) == MARK
  {
    assert piece[|piece|..] == [];
  }

  lemma PieceInOrderBecomesOneMark(order: seq<JsString>, k: nat)
    requires k < |order| && LongestFirst(order) && forall i | 0 <= i < |order| :: |order[i]| >= 6
    requires forall i, j | 0 <= i < j < |order| :: order[i] != order[j]
    ensures ReplaceAll(order[k], order) == MARK
  {
    LongerPiecesLeaveIt(order, k);
    ReplacesItself(order[k]);
    hide Replace, LongestFirst;
    var upTo := order[..k + 1];
    assert upTo[..k] == order[..k] && upTo[k] == order[k];
    assert ReplaceAll(order[k], upTo) == MARK;
    hide ReplaceAll;
    MarkStays(order[k], order, k + 1);
  }

  /** An address that is itself a piece becomes one mark: no shorter piece breaks it up first, stars or not. */
  lemma WholePieceBecomesOneMark(piece: JsString, pieces: seq<JsString>)
    requires piece in pieces && |piece| >= 6
    ensures Redacted(piece, pieces) == ['*' as int, '*' as int, '*' as int]
  {
    OrderHasNoBlank(pieces);
    OrderOfPieces(pieces);
    var order := InOrder(pieces);
    hide InOrder, LongestFirst, ReplaceAll;
    assert piece in order;
    var k :| 0 <= k < |order| && order[k] == piece;
    forall i | 0 <= i < |order| ensures |order[i]| >= 6 {
      assert order[i] in order;
    }
    PieceInOrderBecomesOneMark(order, k);
  }

  const STARRED: JsString := [STAR, STAR, STAR, 1, 2, 3]
  const PLAIN: JsString := [4, 5, 6, 7, 8, 9]

  lemma StarredOrder()
    ensures InOrder([STARRED, PLAIN]) == [STARRED, PLAIN]
  {
    var one, two := [STARRED], [STARRED, PLAIN];
    assert two[..1] == one && one[..0] == [] && STARRED[0] != PLAIN[0];
    assert Distinct(one) == one && LongEnough(one) == one && Sorted(one) == one;
    assert Distinct(two) == two;
    assert LongEnough(two) == two;
    assert Sorted(two) == Insert(one, PLAIN) == two;
  }

  lemma StarredAppears()
    ensures Replace(PLAIN + [1, 2, 3], PLAIN) == STARRED
  {
    var text := PLAIN + [1, 2, 3];
    assert PLAIN <= text && text[|PLAIN|..] == [1, 2, 3];
    ShortStays();
  }

  /** A piece that holds a star may come out of the replacement of another. */
  lemma AStarredPieceMaySurvive()
    ensures Redacted(PLAIN + [1, 2, 3], [STARRED, PLAIN]) == STARRED
  {
    var text := PLAIN + [1, 2, 3];
    StarredOrder();
    NotThere(text);
    NothingToReplace(text, STARRED);
    StarredAppears();
    hide InOrder, Replace, Within;
    OneByOne(text, STARRED, PLAIN);
  }

  lemma OneByOne(text: JsString, a: JsString, b: JsString)
    requires a != [] && b != []
    ensures ReplaceAll(text, [a, b]) == Replace(Replace(text, a), b)
  {
    assert [a, b][..1] == [a] && [a][..0] == [];
    assert ReplaceAll(text, [a]) == Replace(text, a);
  }

  lemma NotThere(text: JsString)
    requires text == PLAIN + [1, 2, 3]
    ensures !Within(STARRED, text)
  {
    forall i | 0 <= i <= |text| - |STARRED| ensures !At(STARRED, text, i) {
      assert text[i..i + |STARRED|][0] == text[i] != STAR == STARRED[0];
    }
  }

  lemma ShortStays()
    ensures Replace([1, 2, 3], PLAIN) == [1, 2, 3]
  {
    LongerIsNotWithin(PLAIN, [1, 2, 3]);
    NothingToReplace([1, 2, 3], PLAIN);
  }
}
