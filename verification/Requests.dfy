/**
 One request to Shopify: what may be sent again, after how long, and how long to let
 the bucket of points refill.
 */
module Requests {
  import opened Options
  import opened Text

  const MAX_ATTEMPTS := 3

  /** A failure with what Shopify said about it, or a request that never came back. */
  datatype Failure =
    | Shopify(status: Option<int>, retryAfterSeconds: Option<int>, code: Option<string>)
    | Network

  // --- Is it a write? ----------------------------------------------------------

  predicate IsComment(line: string) {
    line != "" && line[0] == '#'
  }

  /** The lines that are neither blank nor comments, trimmed. */
  function Significant(lines: seq<string>): seq<string> {
    if lines == [] then []
    else
      var line := Trim(lines[0]);
      (if line == "" || IsComment(line) then [] else [line]) + Significant(lines[1..])
  }

  predicate IsWordChar(c: char) {
    'a' <= c <= 'z' || 'A' <= c <= 'Z' || '0' <= c <= '9' || c == '_'
  }

  predicate StartsWithMutation(s: string) {
    var word := "mutation";
    word <= s && (|s| == |word| || !IsWordChar(s[|word|]))
  }

  predicate IsMutation(query: string) {
    StartsWithMutation(TrimStart(Join(Significant(Split(query, '\n')), " ")))
  }

  /** The word `mutation`, and no longer word. */
  ghost predicate OpensAMutation(body: string) {
    "mutation" <= body &&
    (|body| == 8 || !('a' <= body[8] <= 'z' || 'A' <= body[8] <= 'Z' || '0' <= body[8] <= '9' || body[8] == '_'))
  }

  lemma OpeningWord(s: string)
    ensures StartsWithMutation(s) <==> OpensAMutation(s)
  {
  }

  lemma {:induction false} SignificantLinesHaveText(lines: seq<string>)
    ensures forall l | l in Significant(lines) :: l != "" && !IsSpace(l[0])
  {
    if lines != [] {
      SignificantLinesHaveText(lines[1..]);
      var start := TrimStart(lines[0]);
      assert Trim(lines[0]) <= start;
    }
  }

  lemma MutationLine(line: string, rest: string)
    ensures StartsWithMutation(line + " " + rest) <==> StartsWithMutation(line)
  {
    var word, all := "mutation", line + " " + rest;
    assert all[|line|] == ' ';
    if |line| < |word| {
      assert word[|line|] != ' ';
    } else {
      assert word <= all <==> word <= line;
      assert |line| == |word| ==> all[|word|] == ' ';
      assert |line| > |word| ==> all[|word|] == line[|word|];
    }
  }

  /** Only the first line that is neither blank nor a comment decides. */
  lemma FirstSignificantLineDecides(query: string)
    ensures var lines := Significant(Split(query, '\n'));
      IsMutation(query) <==> lines != [] && OpensAMutation(lines[0])
  {
    var lines := Significant(Split(query, '\n'));
    SignificantLinesHaveText(Split(query, '\n'));
    if lines != [] {
      OpeningWord(lines[0]);
      hide StartsWithMutation, OpensAMutation, Significant, Split;
      var document := Join(lines, " ");
      assert lines[0] in lines;
      assert document[0] == lines[0][0];
      assert TrimStart(document) == document;
      if |lines| > 1 {
        MutationLine(lines[0], Join(lines[1..], " "));
      }
    }
  }

  /** Comments and blank lines in front change nothing. */
  lemma LeadingCommentsDoNotMatter(line: string, query: string)
    requires '\n' !in line && (Trim(line) == "" || IsComment(Trim(line)))
    ensures IsMutation(line + "\n" + query) <==> IsMutation(query)
  {
    SplitHead(line, query, '\n');
    assert line + ['\n'] + query == line + "\n" + query;
    var rest := Split(query, '\n');
    assert ([line] + rest)[1..] == rest;
    assert Significant([line] + rest) == [] + Significant(rest);
    FirstSignificantLineDecides(query);
    FirstSignificantLineDecides(line + "\n" + query);
  }

  // --- The documents that write, as a reader sees them ------------------------------

  /** A line that says nothing: blanks, or blanks and a comment. */
  ghost predicate Idle(line: string) {
    '\n' !in line && exists i | 0 <= i <= |line| ::
      (forall k | 0 <= k < i :: IsSpace(line[k])) && (i == |line| || line[i] == '#')
  }

  /** Some lines, each with its line break. */
  ghost function Lines(front: seq<string>): string {
    if front == [] then "" else front[0] + "\n" + Lines(front[1..])
  }

  /** After lines that say nothing and some blanks, the document goes on with this text. */
  ghost predicate GoesOn(query: string, front: seq<string>, pad: string, body: string) {
    && (forall line | line in front :: Idle(line))
    && (forall c | c in pad :: IsSpace(c) && c != '\n')
    && query == Lines(front) + pad + body
  }

  /** A document that writes: past what says nothing, it opens a mutation. */
  ghost predicate Writes(query: string) {
    exists front, pad, body :: GoesOn(query, front, pad, body) && OpensAMutation(body)
  }

  lemma {:induction false} TrimStartLeaves(s: string) returns (pad: string)
    ensures s == pad + TrimStart(s) && forall c | c in pad :: IsSpace(c)
  {
    if s != "" && IsSpace(s[0]) {
      var rest := TrimStartLeaves(s[1..]);
      pad := [s[0]] + rest;
      assert s == [s[0]] + s[1..];
    } else {
      pad := "";
    }
  }

  lemma {:induction false} TrimEndLeaves(s: string)
    ensures forall i | |TrimEnd(s)| <= i < |s| :: IsSpace(s[i])
  {
    if s != "" && IsSpace(s[|s| - 1]) {
      var less := s[..|s| - 1];
      TrimEndLeaves(less);
      forall i | |TrimEnd(s)| <= i < |s| ensures IsSpace(s[i]) {
        assert i < |less| ==> less[i] == s[i];
      }
    }
  }

  lemma IdleMeans(line: string)
    requires '\n' !in line
    ensures Idle(line) <==> Trim(line) == "" || IsComment(Trim(line))
  {
    var text := TrimStart(line);
    var pad := TrimStartLeaves(line);
    TrimEndLeaves(text);
    forall i | 0 <= i < |pad| ensures IsSpace(line[i]) {
      assert line[i] == pad[i];
    }
    assert text != "" ==> line[|pad|] == text[0];
    assert !IsSpace('#');
    if Idle(line) {
      var i :| 0 <= i <= |line| && (forall k | 0 <= k < i :: IsSpace(line[k])) && (i == |line| || line[i] == '#');
      assert text != "" ==> |pad| >= i;
      assert text != "" ==> i == |pad|;
    }
    if Trim(line) == "" || IsComment(Trim(line)) {
      assert text == "" ==> |pad| == |line|;
    }
  }

  lemma {:induction false} FirstPiece(s: string)
    ensures var first := Split(s, '\n')[0];
      first <= s && '\n' !in first && (first == s || s[|first|] == '\n')
  {
    if s != "" && s[0] != '\n' {
      FirstPiece(s[1..]);
      assert s == [s[0]] + s[1..];
    }
  }

  lemma {:induction false} PaddedPiece(pad: string, s: string)
    requires '\n' !in pad
    ensures Split(pad + s, '\n')[0] == pad + Split(s, '\n')[0]
  {
    if pad == "" {
      assert pad + s == s && pad + Split(s, '\n')[0] == Split(s, '\n')[0];
    } else {
      assert (pad + s)[1..] == pad[1..] + s;
      PaddedPiece(pad[1..], s);
      assert [pad[0]] + (pad[1..] + Split(s, '\n')[0]) == pad + Split(s, '\n')[0];
    }
  }

  /** The first word of a line, once what follows the text is trimmed away. */
  lemma TrimmedOpens(body: string, first: string)
    requires first <= body && (first == body || body[|first|] == '\n')
    ensures StartsWithMutation(TrimEnd(first)) <==> OpensAMutation(body)
  {
    var word, t := "mutation", TrimEnd(first);
    TrimEndLeaves(first);
    NoSpaceInWord();
    if word <= body {
      assert forall i | 0 <= i < 8 :: body[i] == word[i];
      assert |first| >= 8;
      assert first[7] == word[7] && |t| >= 8;
      assert t[..8] == body[..8];
    }
  }

  lemma NoSpaceInWord()
    ensures var word := "mutation"; |word| == 8 && forall i | 0 <= i < 8 :: word[i] != '\n' && !IsSpace(word[i])
  {
    var word := "mutation";
    forall i | 0 <= i < 8 ensures word[i] != '\n' && !IsSpace(word[i]) {
      assert 'a' <= word[i] <= 'z';
    }
  }

  lemma OpeningLine(pad: string, body: string)
    requires (forall c | c in pad :: IsSpace(c) && c != '\n') && (body == "" || (!IsSpace(body[0]) && body[0] != '#'))
    ensures IsMutation(pad + body) <==> OpensAMutation(body)
  {
    var lines, first := Split(pad + body, '\n'), Split(body, '\n')[0];
    FirstSignificantLineDecides(pad + body);
    PaddedPiece(pad, body);
    FirstPiece(body);
    if body == "" {
      PadIsOneLine(pad);
    } else {
      TrimStartOf(pad, first);
      TrimEndLeaves(first);
      assert Trim(lines[0]) == TrimEnd(first);
      TrimmedOpens(body, first);
    }
  }

  lemma PadIsOneLine(pad: string)
    requires forall c | c in pad :: IsSpace(c) && c != '\n'
    ensures Significant(Split(pad + "", '\n')) == []
  {
    assert pad + "" == pad;
    SplitNone(pad, '\n');
    TrimStartOf(pad, "");
    assert Significant([pad]) == Significant([pad][1..]);
  }

  /** Whatever says nothing in front, the text after it decides, and by its first word alone. */
  lemma {:induction false} FirstWordDecides(query: string, front: seq<string>, pad: string, body: string)
    requires GoesOn(query, front, pad, body) && (body == "" || (!IsSpace(body[0]) && body[0] != '#'))
    ensures IsMutation(query) <==> OpensAMutation(body)
    ensures body == "" || body[0] != 'm' ==> !IsMutation(query)
    decreases |front|
  {
    if front == [] {
      assert query == pad + body;
      OpeningLine(pad, body);
    } else {
      var rest := Lines(front[1..]) + pad + body;
      assert query == front[0] + "\n" + rest;
      assert front[0] in front;
      IdleMeans(front[0]);
      LeadingCommentsDoNotMatter(front[0], rest);
      assert GoesOn(rest, front[1..], pad, body);
      FirstWordDecides(rest, front[1..], pad, body);
    }
  }

  /** Every document taken for a mutation goes on with one. */
  lemma {:induction false} GoesOnWithOne(query: string) returns (front: seq<string>, pad: string, body: string)
    requires IsMutation(query)
    ensures GoesOn(query, front, pad, body) && OpensAMutation(body)
    decreases |query|
  {
    var first := Split(query, '\n')[0];
    FirstPiece(query);
    IdleMeans(first);
    if Idle(first) {
      var rest := RestIsOne(query, first);
      front, pad, body := GoesOnWithOne(rest);
      front := PutInFront(query, first, rest, front, pad, body);
    } else {
      front := [];
      pad, body := OpensAtOnce(query, first);
    }
  }

  lemma RestIsOne(query: string, first: string) returns (rest: string)
    requires IsMutation(query) && Idle(first)
    requires first <= query && (first == query || query[|first|] == '\n')
    ensures query == first + "\n" + rest && IsMutation(rest) && |rest| < |query|
  {
    IdleMeans(first);
    FirstSignificantLineDecides(query);
    hide IsMutation, Idle, Trim;
    if first == query {
      SplitNone(query, '\n');
      assert Significant([query]) == Significant([query][1..]);
    }
    rest := query[|first| + 1..];
    assert query == first + "\n" + rest;
    LeadingCommentsDoNotMatter(first, rest);
  }

  lemma PutInFront(query: string, first: string, rest: string, front: seq<string>, pad: string, body: string)
    returns (more: seq<string>)
    requires query == first + "\n" + rest && Idle(first) && GoesOn(rest, front, pad, body)
    ensures GoesOn(query, more, pad, body)
  {
    hide Idle;
    more := [first] + front;
    assert more[1..] == front;
    assert Lines(more) == first + "\n" + Lines(front);
  }

  lemma OpensAtOnce(query: string, first: string) returns (pad: string, body: string)
    requires IsMutation(query) && !Idle(first) && first <= query && '\n' !in first
    ensures GoesOn(query, [], pad, body) && OpensAMutation(body)
  {
    pad := TrimStartLeaves(first);
    body := query[|pad|..];
    TrimEndLeaves(TrimStart(first));
    IdleMeans(first);
    assert first == pad + TrimStart(first);
    assert query == pad + body && Lines([]) + pad + body == query;
    hide IsMutation, Idle, OpensAMutation;
    assert body[0] == TrimStart(first)[0];
    OpeningLine(pad, body);
  }

  /** A request counts as a mutation exactly when it writes. */
  lemma MutationsAreWhatWrites(query: string)
    ensures IsMutation(query) <==> Writes(query)
  {
    if IsMutation(query) {
      var front, pad, body := GoesOnWithOne(query);
    }
    if Writes(query) {
      var front, pad, body :| GoesOn(query, front, pad, body) && OpensAMutation(body);
      assert !IsSpace(body[0]) && body[0] != '#' by { assert body[0] == "mutation"[0]; }
      FirstWordDecides(query, front, pad, body);
    }
  }

  // --- The retry loop -------------------------------------------------------------

  predicate Throttled(e: Failure) {
    e.Shopify? && (e.status == Some(429) || e.code == Some("THROTTLED"))
  }

  predicate Transient(e: Failure) {
    match e
    case Network => true
    case Shopify(status, _, code) => code == Some("INTERNAL_SERVER_ERROR") || (status.Some? && status.value >= 500)
  }

  function Pow2(n: nat): nat {
    if n == 0 then 1 else 2 * Pow2(n - 1)
  }

  function Backoff(attempt: nat): nat
    requires attempt >= 1
  {
    300 * Pow2(attempt - 1)
  }

  /** How long to wait before another attempt, or None to give up. */
  function RetryDelay(e: Failure, attempt: nat, mutation: bool): Option<int>
    requires attempt >= 1
  {
    if attempt >= MAX_ATTEMPTS then None
    else
      var backoff := Backoff(attempt);
      match e
      case Shopify(status, retryAfter, code) =>
        if status == Some(429) || code == Some("THROTTLED") then
          match retryAfter
          case Some(seconds) => Some(if seconds * 1000 >= backoff then seconds * 1000 else backoff)
          case None => Some(backoff)
        else if mutation then None
        else if code == Some("INTERNAL_SERVER_ERROR") then Some(backoff)
        else if status.Some? && status.value >= 500 then Some(backoff)
        else None
      case Network => if mutation then None else Some(backoff)
  }

  /** A delay is given exactly for a throttled request, or a read that failed in passing. */
  lemma RetriedExactlyWhenSafe(e: Failure, attempt: nat, mutation: bool)
    requires attempt >= 1
    ensures RetryDelay(e, attempt, mutation).Some? <==>
      attempt < MAX_ATTEMPTS && (Throttled(e) || (!mutation && Transient(e)))
    ensures RetryDelay(e, attempt, mutation).Some? ==>
      && RetryDelay(e, attempt, mutation).value >= Backoff(attempt)
      && (Throttled(e) && e.retryAfterSeconds.Some? ==>
            RetryDelay(e, attempt, mutation).value >= e.retryAfterSeconds.value * 1000)
  {
  }

  /**
   What is waited: 300 milliseconds and then 600, or longer if a throttled request was told
   how long; never a third time. A request is throttled, or fails in passing, by what
   Shopify says alone.
   */
  lemma DelaysAreThese(e: Failure, attempt: nat, mutation: bool)
    requires attempt >= 1
    ensures attempt >= 3 ==> RetryDelay(e, attempt, mutation).None?
    ensures attempt <= 2 ==> Backoff(attempt) == if attempt == 1 then 300 else 600
    ensures var delay, least := RetryDelay(e, attempt, mutation), if attempt == 1 then 300 else 600;
      delay.Some? ==>
        if Throttled(e) && e.retryAfterSeconds.Some? && e.retryAfterSeconds.value * 1000 > least
        then delay.value == e.retryAfterSeconds.value * 1000 else delay.value == least
    ensures Throttled(e) <==> e != Network && (e.status == Some(429) || e.code == Some("THROTTLED"))
    ensures Transient(e) <==>
      e == Network || e.code == Some("INTERNAL_SERVER_ERROR") || (e.status.Some? && e.status.value >= 500)
  {
  }

  /**
   What became of one attempt. `executed` is the server's side of it, which the client
   never sees: a request may have been applied although its answer was an error.
   */
  datatype Attempt<T> = Success(data: T) | Fault(error: Failure, executed: bool)

  datatype Result<T> = Ok(data: T) | Err(error: Failure)

  /** Shopify turns a throttled request away before executing it. */
  ghost predicate ThrottledMeansRejected<T(!new)>(server: nat -> Attempt<T>) {
    forall k: nat :: server(k).Fault? && Throttled(server(k).error) ==> !server(k).executed
  }

  /** An attempt that was followed by another: safely repeatable, and waited for long enough. */
  ghost predicate RetriedSafely<T>(a: Attempt<T>, attempt: nat, wait: int, mutation: bool)
    requires attempt >= 1
  {
    && a.Fault?
    && (Throttled(a.error) || (!mutation && Transient(a.error)))
    && wait >= Backoff(attempt)
    && (Throttled(a.error) && a.error.retryAfterSeconds.Some? ==> wait >= a.error.retryAfterSeconds.value * 1000)
  }

  /**
   `graphql`: for every sequence of outcomes it makes at most three attempts, a
   mutation that may have been executed is never sent again, every wait is at least the
   backoff and the delay the server asked for, and it gives up only when it must.
   */
  method Graphql<T(!new)>(query: string, server: nat -> Attempt<T>) returns (result: Result<T>, attempts: nat, waits: seq<int>)
    requires ThrottledMeansRejected(server)
    ensures 1 <= attempts <= 3 && |waits| == attempts - 1
    ensures server(attempts - 1).Success? ==> result == Ok(server(attempts - 1).data)
    ensures server(attempts - 1).Fault? ==> result == Err(server(attempts - 1).error)
    ensures Writes(query) ==> forall k: nat | k < attempts - 1 :: server(k).Fault? && !server(k).executed
    ensures forall k: nat | k < attempts - 1 :: RetriedSafely(server(k), k + 1, waits[k], Writes(query))
    ensures result.Err? && attempts < 3 ==>
      !Throttled(result.error) && (Writes(query) || !Transient(result.error))
  {
    MutationsAreWhatWrites(query);
    hide IsMutation, Writes;
    result, attempts, waits := SendUntilSettled(IsMutation(query), server);
  }

  method SendUntilSettled<T(!new)>(mutation: bool, server: nat -> Attempt<T>)
    returns (result: Result<T>, attempts: nat, waits: seq<int>)
    requires ThrottledMeansRejected(server)
    ensures 1 <= attempts <= MAX_ATTEMPTS && |waits| == attempts - 1
    ensures server(attempts - 1).Success? ==> result == Ok(server(attempts - 1).data)
    ensures server(attempts - 1).Fault? ==> result == Err(server(attempts - 1).error)
    ensures mutation ==> forall k: nat | k < attempts - 1 :: server(k).Fault? && !server(k).executed
    ensures forall k: nat | k < attempts - 1 :: RetriedSafely(server(k), k + 1, waits[k], mutation)
    ensures result.Err? && attempts < MAX_ATTEMPTS ==>
      !Throttled(result.error) && (mutation || !Transient(result.error))
  {
    attempts, waits := 0, [];
    while true
      invariant attempts < MAX_ATTEMPTS && |waits| == attempts
      invariant forall k: nat | k < attempts :: RetriedSafely(server(k), k + 1, waits[k], mutation)
      decreases MAX_ATTEMPTS - attempts
    {
      var outcome := server(attempts);
      attempts := attempts + 1;
      if outcome.Success? {
        return Ok(outcome.data), attempts, waits;
      }
      var delay := RetryDelay(outcome.error, attempts, mutation);
      RetriedExactlyWhenSafe(outcome.error, attempts, mutation);
      if delay.None? {
        return Err(outcome.error), attempts, waits;
      }
      waits := waits + [delay.value];
    }
  }

  // --- The bucket of points -----------------------------------------------------------

  /** The bucket as Shopify declares it; levels are in thousandths of a point. */
  datatype Bucket = Bucket(maximum: nat, available: int, restoreRate: Option<int>)

  function CeilDiv(a: int, b: int): int
    requires b > 0
  {
    (a + b - 1) / b
  }

  function WaitFor(cost: Option<nat>, bucket: Option<Bucket>): (wait: nat) {
    if cost.GetOr(0) == 0 || bucket.None? || bucket.value.restoreRate.GetOr(0) <= 0 then 0
    else
      var missing := cost.value * 1000 - bucket.value.available;
      if missing <= 0 then 0
      else
        CeilDiv(missing, bucket.value.restoreRate.value)
  }

  /** Points come back, and there are never more than the maximum. */
  ghost predicate Refills(b: Bucket) {
    b.restoreRate.GetOr(0) > 0 && b.available <= b.maximum * 1000
  }

  /** What the bucket holds after some milliseconds in which nobody spends. */
  ghost function LevelAfter(b: Bucket, ms: nat): int {
    var level := b.available + b.restoreRate.GetOr(0) * ms;
    if level <= b.maximum * 1000 then level else b.maximum * 1000
  }

  /**
   The wait is enough exactly when the bucket can hold the cost at all, and not a
   millisecond of it is superfluous.
   */
  lemma WaitIsExact(cost: nat, b: Bucket)
    requires cost > 0 && Refills(b)
    ensures var wait := WaitFor(Some(cost), Some(b));
      && (LevelAfter(b, wait) >= cost * 1000 <==> cost <= b.maximum)
      && (wait > 0 ==> LevelAfter(b, wait - 1) < cost * 1000)
  {
    var wait, rate := WaitFor(Some(cost), Some(b)), b.restoreRate.value;
    var missing := cost * 1000 - b.available;
    if missing > 0 {
      assert rate * (wait - 1) < missing <= rate * wait;
    }
  }

  /**
   `attendiSerbatoioPer`: the milliseconds until another query of this cost fits. With a
   bucket that refills, the level after the wait covers the cost if and only if the bucket
   can hold it, and a millisecond less would not do; nothing to wait for, no wait.
   */
  method AwaitBucket(cost: Option<nat>, bucket: Option<Bucket>) returns (wait: nat)
    ensures wait == WaitFor(cost, bucket)
    ensures cost.GetOr(0) == 0 || bucket.None? || bucket.value.restoreRate.GetOr(0) <= 0 ==> wait == 0
    ensures cost.Some? && bucket.Some? && cost.value * 1000 <= bucket.value.available ==> wait == 0
    ensures cost.GetOr(0) > 0 && bucket.Some? && Refills(bucket.value) ==>
      (LevelAfter(bucket.value, wait) >= cost.value * 1000 <==> cost.value <= bucket.value.maximum)
    ensures cost.GetOr(0) > 0 && bucket.Some? && Refills(bucket.value) && wait > 0 ==>
      LevelAfter(bucket.value, wait - 1) < cost.value * 1000
  {
    if cost.GetOr(0) > 0 && bucket.Some? && Refills(bucket.value) {
      WaitIsExact(cost.value, bucket.value);
    }
    if cost.GetOr(0) == 0 || bucket.None? || bucket.value.restoreRate.GetOr(0) <= 0 {
      return 0;
    }
    var b := bucket.value;
    var missing := cost.value * 1000 - b.available;
    if missing <= 0 {
      return 0;
    }
    wait := CeilDiv(missing, b.restoreRate.value);
  }

  /** A run of equal queries, each preceded by its wait: none finds the bucket too low. */
  ghost predicate NeverThrottled(cost: nat, b: Bucket, queries: nat)
    decreases queries
  {
    queries == 0 ||
    (&& b.available >= cost * 1000
     && var spent := b.(available := b.available - cost * 1000);
        NeverThrottled(cost, spent.(available := LevelAfter(spent, WaitFor(Some(cost), Some(spent)))), queries - 1))
  }

  lemma {:induction false} EqualQueriesNeverThrottled(cost: nat, b: Bucket, queries: nat)
    requires 0 < cost <= b.maximum && b.restoreRate.GetOr(0) > 0
    requires cost * 1000 <= b.available <= b.maximum * 1000
    ensures NeverThrottled(cost, b, queries)
    decreases queries
  {
    if queries > 0 {
      var spent := b.(available := b.available - cost * 1000);
      WaitIsExact(cost, spent);
      EqualQueriesNeverThrottled(cost, spent.(available := LevelAfter(spent, WaitFor(Some(cost), Some(spent)))), queries - 1);
    }
  }
}
