/**
 What each mechanism and each assumption of the token renewal is for: what fails in some
 run without it, and in no run with it.
 */
module TokenMechanisms {
  import opened Options
  import opened TokenRenewal

  // --- Nothing has to be unlocked ------------------------------------------------------

  /** The segments of a call that goes for the turn and meets nobody. */
  function GoForTurn(c: CallId, home: Instance): seq<Step> {
    [Begin(c, home), Segment(c, Read), Segment(c, Decide), Segment(c, Sample), Segment(c, Commit(true))]
  }

  lemma {:induction false} RunExtends(w: World, steps: seq<Step>, s: Step)
    requires Run(w, steps) && Enabled(Exec(w, steps), s)
    ensures Run(w, steps + [s]) && Exec(w, steps + [s]) == Apply(Exec(w, steps), s)
    decreases |steps|
  {
    if steps == [] {
      assert steps + [s] == [s] && [s][1..] == [];
    } else {
      assert (steps + [s])[1..] == steps[1..] + [s];
      RunExtends(Apply(w, steps[0]), steps[1..], s);
    }
  }

  /** A call begins, reads an expired row and finds no flight on its instance. */
  lemma ReadsAndStarts(w: World, before: seq<Step>, c: CallId, home: Instance)
    requires Run(w, before)
    requires var now := Exec(w, before);
      now.row.Some? && now.configured && c !in now.calls && home !in now.flights && !StillGood(now.row.value.expiresAt, now.now)
    ensures var steps := before + [Begin(c, home)] + [Segment(c, Read)] + [Segment(c, Decide)];
      var now := Exec(w, before);
      && Run(w, steps)
      && Exec(w, steps) == now.(calls := now.calls[c := Call(home, Starting(now.row.value))], flights := now.flights[home := c])
  {
    hide Run, Exec;
    RunExtends(w, before, Begin(c, home));
    var s1 := before + [Begin(c, home)];
    RunExtends(w, s1, Segment(c, Read));
    RunExtends(w, s1 + [Segment(c, Read)], Segment(c, Decide));
    var now := Exec(w, before);
    assert now.log + [] + [] == now.log;
  }

  lemma SamplesAndTakes(w: World, before: seq<Step>, c: CallId)
    requires Run(w, before)
    requires var now := Exec(w, before);
      && c in now.calls && now.calls[c].pc.Starting? && now.row == Some(now.calls[c].pc.seen)
      && TurnIsFree(now.row.value.updatedAt, now.now)
    ensures var steps := before + [Segment(c, Sample)] + [Segment(c, Commit(true))];
      var now := Exec(w, before);
      && Run(w, steps)
      && c in Exec(w, steps).calls
      && Exec(w, steps).calls[c].pc == Exchanging(now.row.value, now.now)
      && Exec(w, steps).row == Some(now.row.value.(updatedAt := now.now))
  {
    hide Run, Exec;
    RunExtends(w, before, Segment(c, Sample));
    RunExtends(w, before + [Segment(c, Sample)], Segment(c, Commit(true)));
  }

  lemma OnlyTicks(w: World, elapsed: nat)
    ensures Run(w, [Tick(elapsed)]) && Exec(w, [Tick(elapsed)]) == w.(now := w.now + elapsed)
  {
    assert [Tick(elapsed)][1..] == [];
  }

  /**
   Whatever became of the last holder, once its lease is over a new call on an
   instance without a flight of its own takes the turn: nothing has to be unlocked.
   */
  lemma DeadHolderBlocksNobody(w: World, elapsed: nat, c: CallId, home: Instance)
    requires w.row.Some? && w.configured
    requires c !in w.calls && home !in w.flights
    requires w.now + elapsed >= w.row.value.updatedAt + 10_000
    requires !StillGood(w.row.value.expiresAt, w.now + elapsed)
    ensures var steps := [Tick(elapsed)] + GoForTurn(c, home);
      && Run(w, steps)
      && var end := Exec(w, steps);
         && c in end.calls
         && end.calls[c].pc == Exchanging(w.row.value, w.now + elapsed)
         && end.row == Some(w.row.value.(updatedAt := w.now + elapsed))
  {
    hide Run, Exec, Apply;
    var s1: seq<Step> := [Tick(elapsed)];
    OnlyTicks(w, elapsed);
    ReadsAndStarts(w, s1, c, home);
    var s2 := s1 + [Begin(c, home)] + [Segment(c, Read)] + [Segment(c, Decide)];
    SamplesAndTakes(w, s2, c);
    assert [Tick(elapsed)] + GoForTurn(c, home) == s2 + [Segment(c, Sample)] + [Segment(c, Commit(true))];
  }

  // --- The two assumptions are needed ----------------------------------------------

  lemma {:induction false} OrderlyExtends(w: World, steps: seq<Step>, s: Step, strict: bool, lease: nat)
    requires OrderlyRun(w, steps, strict, lease) && Run(w, steps)
    requires Enabled(Exec(w, steps), s) && OrderlyStep(Exec(w, steps), s, strict)
    requires Apply(Exec(w, steps), s).row.Some? && Timely(Apply(Exec(w, steps), s), lease)
    ensures OrderlyRun(w, steps + [s], strict, lease)
    ensures Run(w, steps + [s]) && Exec(w, steps + [s]) == Apply(Exec(w, steps), s)
    decreases |steps|
  {
    if steps == [] {
      assert steps + [s] == [s] && [s][1..] == [];
    } else {
      assert (steps + [s])[1..] == steps[1..] + [s];
      OrderlyExtends(Apply(w, steps[0]), steps[1..], s, strict, lease);
    }
  }

  /** An expired row last touched twenty seconds ago, and nobody about. */
  function QuietStart(rules: Rules): World {
    World(20_000, true, Some(OLD_ROW), map[], map[], 1, 2, [], rules)
  }

  const OLD_ROW := Row(0, 1, 0, 0)
  const TAKEN_ROW := Row(0, 1, 0, 20_000)

  ghost predicate SpentSafe(w: World, steps: seq<Step>) {
    Run(w, steps) && SpentNeverPresented(Exec(w, steps).log)
  }

  /** What is switched on, and what is assumed of saves and of holders. */
  datatype Setting = Setting(rules: Rules, strict: bool, lease: nat)

  /** An orderly run from the quiet start leads to `w`. */
  ghost predicate Reaches(p: Setting, steps: seq<Step>, w: World) {
    var start := QuietStart(p.rules);
    Run(start, steps) && OrderlyRun(start, steps, p.strict, p.lease) && Exec(start, steps) == w
  }

  lemma Then(p: Setting, before: seq<Step>, w: World, s: Step) returns (steps: seq<Step>, next: World)
    requires Reaches(p, before, w) && Enabled(w, s) && OrderlyStep(w, s, p.strict)
    requires Apply(w, s).row.Some? && Timely(Apply(w, s), p.lease)
    ensures next == Apply(w, s) && Reaches(p, steps, next)
  {
    OrderlyExtends(QuietStart(p.rules), before, s, p.strict, p.lease);
    steps, next := before + [s], Apply(w, s);
  }

  lemma FirstStarts(p: Setting) returns (steps: seq<Step>, w: World)
    requires p.lease >= 1
    ensures w == QuietStart(p.rules).(calls := map[1 := Call(1, Starting(OLD_ROW))], flights := map[1 := 1])
      && Reaches(p, steps, w)
  {
    steps, w := [], QuietStart(p.rules);
    assert Reaches(p, steps, w);
    hide Reaches;
    steps, w := Then(p, steps, w, Begin(1, 1));
    steps, w := Then(p, steps, w, Segment(1, Read));
    steps, w := Then(p, steps, w, Segment(1, Decide));
  }

  lemma FirstTakes(p: Setting) returns (steps: seq<Step>, w: World)
    requires p.lease >= 1
    ensures w == World(20_000, true, Some(TAKEN_ROW), map[1 := Call(1, Exchanging(OLD_ROW, 20_000))],
                       map[1 := 1], 1, 2, [TookTurn(1, 0, 20_000, 1)], p.rules)
      && Reaches(p, steps, w)
  {
    hide Reaches;
    steps, w := FirstStarts(p);
    steps, w := Then(p, steps, w, Segment(1, Sample));
    steps, w := Then(p, steps, w, Segment(1, Commit(true)));
  }

  /** The first call takes the turn; a second one, on another instance, reads the row it left. */
  lemma TwoReaders(p: Setting) returns (steps: seq<Step>, w: World)
    requires p.lease >= 1
    ensures w == World(20_000, true, Some(TAKEN_ROW),
                       map[1 := Call(1, Exchanging(OLD_ROW, 20_000)), 2 := Call(2, Deciding(Some(TAKEN_ROW)))],
                       map[1 := 1], 1, 2, [TookTurn(1, 0, 20_000, 1)], p.rules)
      && Reaches(p, steps, w)
  {
    hide Reaches;
    steps, w := FirstTakes(p);
    steps, w := Then(p, steps, w, Begin(2, 2));
    steps, w := Then(p, steps, w, Segment(2, Read));
  }

  /** Ten seconds later the second reader takes the turn on the version it read. */
  lemma SecondReaderTakes(p: Setting, before: seq<Step>, w: World) returns (steps: seq<Step>, next: World)
    requires p.lease >= 1 && Reaches(p, before, w) && Timely(w, p.lease)
    requires w.now == 30_000 && w.configured && 2 !in w.flights && w.row.Some? && w.row.value.updatedAt == 20_000
    requires 2 in w.calls && w.calls[2] == Call(2, Deciding(Some(TAKEN_ROW))) && w.rules == p.rules
    ensures next == w.(calls := w.calls[2 := Call(2, Exchanging(TAKEN_ROW, 30_000))],
                       flights := w.flights[2 := 2],
                       row := Some(w.row.value.(updatedAt := 30_000)),
                       log := w.log + [TookTurn(2, 20_000, 30_000, w.row.value.refresh)])
      && Reaches(p, steps, next)
  {
    hide Reaches;
    steps, next := Then(p, before, w, Segment(2, Decide));
    steps, next := Then(p, steps, next, Segment(2, Sample));
    steps, next := Then(p, steps, next, Segment(2, Commit(true)));
  }

  /** The first call exchanges its token and saves at the moment it is. */
  lemma FirstCallSaves(p: Setting, before: seq<Step>, w: World) returns (steps: seq<Step>, next: World)
    requires p.lease >= 1 && Reaches(p, before, w) && Timely(w, p.lease)
    requires 1 in w.calls && w.calls[1] == Call(1, Exchanging(OLD_ROW, 20_000))
    requires w.provider == 1 && w.now >= 20_000 && (p.strict ==> w.now > 20_000) && w.row.Some?
    ensures next == w.(calls := w.calls[1 := Call(1, Settled(Answer(w.minted)))],
                       row := Some(Row(w.minted, w.minted + 1, w.now, w.now)),
                       provider := w.minted + 1, minted := w.minted + 2,
                       log := w.log + [Presented(1, 1, 1, Granted(0))] + [SavedGrant(1, w.minted, 1)])
      && Reaches(p, steps, next)
  {
    hide Reaches;
    steps, next := Then(p, before, w, Segment(1, Exchange(Granted(0))));
    steps, next := Then(p, steps, next, Segment(1, Save(w.now, w.now, true)));
  }

  /** The second call presents the token of the row it read, which the first has spent. */
  lemma SecondPresentsSpent(p: Setting, before: seq<Step>, w: World, i: nat) returns (steps: seq<Step>)
    requires p.lease >= 1 && Reaches(p, before, w) && Timely(w, p.lease) && w.row.Some?
    requires 2 in w.calls && w.calls[2].pc.Exchanging? && w.calls[2].pc.seen.refresh == 1
    requires i < |w.log| && w.log[i] == SavedGrant(1, 2, 1)
    ensures OrderlyRun(QuietStart(p.rules), steps, p.strict, p.lease) && !SpentSafe(QuietStart(p.rules), steps)
  {
    var next;
    steps, next := Then(p, before, w, Segment(2, Exchange(Refused(Some(404)))));
    assert next.log[i].spent == next.log[|w.log|].refresh;
  }

  /** A save in the millisecond of its take leaves the version the second reader saw: the guard holds for it. */
  lemma SameMillisecondSave(rules: Rules, lease: nat) returns (steps: seq<Step>)
    requires lease >= 1
    ensures OrderlyRun(QuietStart(rules), steps, false, lease) && !SpentSafe(QuietStart(rules), steps)
  {
    hide Reaches, SpentSafe, Run, OrderlyRun;
    var p, w := Setting(rules, false, lease), QuietStart(rules);
    steps, w := TwoReaders(p);
    steps, w := FirstCallSaves(p, steps, w);
    steps, w := Then(p, steps, w, Tick(10_000));
    steps, w := SecondReaderTakes(p, steps, w);
    steps := SecondPresentsSpent(p, steps, w, 2);
  }

  /** A holder that outlives its lease saves under the feet of the next one. */
  lemma OverdueHolder(rules: Rules, lease: nat) returns (steps: seq<Step>)
    requires lease > 10_000
    ensures OrderlyRun(QuietStart(rules), steps, true, lease) && !SpentSafe(QuietStart(rules), steps)
  {
    hide Reaches, SpentSafe, Run, OrderlyRun;
    var p, w := Setting(rules, true, lease), QuietStart(rules);
    steps, w := TwoReaders(p);
    steps, w := Then(p, steps, w, Tick(10_000));
    steps, w := SecondReaderTakes(p, steps, w);
    steps, w := FirstCallSaves(p, steps, w);
    steps := SecondPresentsSpent(p, steps, w, 3);
  }

  /** Two calls on two instances have read the row. */
  lemma BothHaveRead(p: Setting) returns (steps: seq<Step>, w: World)
    requires p.lease >= 1
    ensures w == QuietStart(p.rules).(calls := map[1 := Call(1, Starting(OLD_ROW)), 2 := Call(2, Starting(OLD_ROW))],
                                      flights := map[1 := 1, 2 := 2])
      && Reaches(p, steps, w)
  {
    hide Reaches;
    steps, w := FirstStarts(p);
    steps, w := Then(p, steps, w, Begin(2, 2));
    steps, w := Then(p, steps, w, Segment(2, Read));
    steps, w := Then(p, steps, w, Segment(2, Decide));
  }

  /** Both find the turn free. */
  lemma BothStart(p: Setting) returns (steps: seq<Step>, w: World)
    requires p.lease >= 1
    ensures w == QuietStart(p.rules).(
              calls := map[1 := Call(1, Taking(OLD_ROW, 20_000)), 2 := Call(2, Taking(OLD_ROW, 20_000))],
              flights := map[1 := 1, 2 := 2])
      && Reaches(p, steps, w)
  {
    hide Reaches;
    steps, w := BothHaveRead(p);
    steps, w := Then(p, steps, w, Segment(1, Sample));
    steps, w := Then(p, steps, w, Segment(2, Sample));
  }

  /** Without the guard both take it. */
  lemma UnguardedTakers(p: Setting) returns (steps: seq<Step>, w: World)
    requires p.lease >= 1 && !p.rules.guarded
    ensures w == World(20_000, true, Some(TAKEN_ROW),
                       map[1 := Call(1, Exchanging(OLD_ROW, 20_000)), 2 := Call(2, Exchanging(OLD_ROW, 20_000))],
                       map[1 := 1, 2 := 2], 1, 2, [TookTurn(1, 0, 20_000, 1), TookTurn(2, 0, 20_000, 1)], p.rules)
      && Reaches(p, steps, w)
  {
    hide Reaches;
    steps, w := BothStart(p);
    steps, w := Then(p, steps, w, Segment(1, Commit(true)));
    steps, w := Then(p, steps, w, Segment(2, Commit(true)));
  }

  /** The second reader goes for the turn that has just been taken. */
  lemma SecondStarts(p: Setting) returns (steps: seq<Step>, w: World)
    requires p.lease >= 1
    ensures w == World(20_000, true, Some(TAKEN_ROW),
                       map[1 := Call(1, Exchanging(OLD_ROW, 20_000)), 2 := Call(2, Starting(TAKEN_ROW))],
                       map[1 := 1, 2 := 2], 1, 2, [TookTurn(1, 0, 20_000, 1)], p.rules)
      && Reaches(p, steps, w)
  {
    hide Reaches;
    steps, w := TwoReaders(p);
    steps, w := Then(p, steps, w, Segment(2, Decide));
  }

  /** Without the lease: the second reader takes the turn on the version the first has just written. */
  lemma UnleasedTakers(p: Setting) returns (steps: seq<Step>, w: World)
    requires p.lease >= 1 && !p.rules.leased
    ensures w == World(20_000, true, Some(TAKEN_ROW),
                       map[1 := Call(1, Exchanging(OLD_ROW, 20_000)), 2 := Call(2, Exchanging(TAKEN_ROW, 20_000))],
                       map[1 := 1, 2 := 2], 1, 2, [TookTurn(1, 0, 20_000, 1), TookTurn(2, 20_000, 20_000, 1)], p.rules)
      && Reaches(p, steps, w)
  {
    hide Reaches;
    steps, w := SecondStarts(p);
    steps, w := Then(p, steps, w, Segment(2, Sample));
    steps, w := Then(p, steps, w, Segment(2, Commit(true)));
  }

  /** With either mechanism off, two calls hold the turn at once and the slower one presents a spent token. */
  lemma NeitherSuffices(rules: Rules, lease: nat) returns (steps: seq<Step>)
    requires lease >= 2 && !(rules.guarded && rules.leased)
    ensures OrderlyRun(QuietStart(rules), steps, true, lease) && !SpentSafe(QuietStart(rules), steps)
  {
    hide Reaches, SpentSafe, Run, OrderlyRun;
    var p, w := Setting(rules, true, lease), QuietStart(rules);
    if !rules.guarded {
      steps, w := UnguardedTakers(p);
    } else {
      steps, w := UnleasedTakers(p);
    }
    steps, w := Then(p, steps, w, Tick(1));
    steps, w := FirstCallSaves(p, steps, w);
    steps := SecondPresentsSpent(p, steps, w, 3);
  }

  /**
   Spent tokens stay spent in every run exactly when a save moves the version on
   strictly and no holder outlives the ten seconds of its turn.
   */
  lemma LeaseIsExact(strict: bool, lease: nat)
    requires lease >= 1
    ensures (forall w, steps :: Initial(w) && w.rules.guarded && w.rules.leased && OrderlyRun(w, steps, strict, lease) ==> SpentSafe(w, steps))
            <==> strict && lease <= 10_000
  {
    if strict && lease <= 10_000 {
      forall w, steps | Initial(w) && w.rules.guarded && w.rules.leased && OrderlyRun(w, steps, strict, lease)
        ensures SpentSafe(w, steps)
      {
        LeaseHolds(w, steps, lease);
      }
    } else if !strict {
      var steps := SameMillisecondSave(Rules(true, true, true, true), lease);
      assert Initial(QuietStart(Rules(true, true, true, true)));
    } else {
      var steps := OverdueHolder(Rules(true, true, true, true), lease);
      assert Initial(QuietStart(Rules(true, true, true, true)));
    }
  }

  /**
   None of the four is enough without the others: spent tokens stay spent in every run
   exactly when the update is guarded, the lease is waited for, a save moves the version
   on strictly, and no holder outlives its turn. (A lease of one millisecond leaves no
   room for a save that does.)
   */
  lemma AllFourAreNeeded(rules: Rules, strict: bool, lease: nat)
    requires lease >= 2
    ensures (forall w, steps :: Initial(w) && w.rules == rules && OrderlyRun(w, steps, strict, lease) ==> SpentSafe(w, steps))
            <==> rules.guarded && rules.leased && strict && lease <= 10_000
  {
    assert Initial(QuietStart(rules)) && QuietStart(rules).rules == rules;
    if !strict {
      var steps := SameMillisecondSave(rules, lease);
    } else if lease > 10_000 {
      var steps := OverdueHolder(rules, lease);
    } else if !(rules.guarded && rules.leased) {
      var steps := NeitherSuffices(rules, lease);
    } else {
      LeaseIsExact(strict, lease);
    }
  }

  // --- The map and the re-read are needed --------------------------------------------

  /** An instance runs one renewal at a time. */
  ghost predicate OneFlightEach(w: World) {
    forall c, d | c in w.calls && d in w.calls && InFlight(w.calls[c].pc) && InFlight(w.calls[d].pc)
      && w.calls[c].home == w.calls[d].home :: c == d
  }

  lemma {:induction false} FlightsInAnyRun(w: World, steps: seq<Step>)
    requires Run(w, steps) && w.rules.mapped && FlightsExact(w)
    ensures FlightsExact(Exec(w, steps))
    decreases |steps|
  {
    if steps != [] {
      FlightsStayExact(w, steps[0]);
      FlightsInAnyRun(Apply(w, steps[0]), steps[1..]);
    }
  }

  /** Two calls on one instance, neither of which looks into the map. */
  lemma TwoOnOneInstance(rules: Rules) returns (steps: seq<Step>)
    requires !rules.mapped
    ensures Run(QuietStart(rules), steps) && !OneFlightEach(Exec(QuietStart(rules), steps))
  {
    var w;
    steps, w := FirstStarts(Setting(rules, true, 1));
    hide Run, Exec, OrderlyRun;
    var start := QuietStart(rules);
    RunExtends(start, steps, Begin(2, 1));
    RunExtends(start, steps + [Begin(2, 1)], Segment(2, Read));
    RunExtends(start, steps + [Begin(2, 1)] + [Segment(2, Read)], Segment(2, Decide));
    steps := steps + [Begin(2, 1)] + [Segment(2, Read)] + [Segment(2, Decide)];
    var end := Exec(start, steps);
    assert InFlight(end.calls[1].pc) && InFlight(end.calls[2].pc) && end.calls[1].home == end.calls[2].home;
  }

  /** Every instance runs one renewal at a time, in every run, exactly when calls look into its map. */
  lemma MapIsNeeded(rules: Rules)
    ensures (forall w, steps :: Initial(w) && w.rules == rules && Run(w, steps) ==> OneFlightEach(Exec(w, steps)))
       <==> rules.mapped
  {
    if rules.mapped {
      forall w, steps | Initial(w) && w.rules == rules && Run(w, steps) ensures OneFlightEach(Exec(w, steps)) {
        FlightsInAnyRun(w, steps);
      }
    } else {
      var steps := TwoOnOneInstance(rules);
      assert Initial(QuietStart(rules)) && QuietStart(rules).rules == rules;
    }
  }

  /** No provider error was given while the row held a good token. */
  ghost predicate NothingOverlooked(log: seq<Event>) {
    forall e | e in log && e.GaveUp? :: !HoldsGood(e.row, e.at)
  }

  lemma {:induction false} RunOverlooksNothing(w: World, steps: seq<Step>)
    requires w.rules.rereads && NothingOverlooked(w.log) && Run(w, steps)
    ensures NothingOverlooked(Exec(w, steps).log)
    decreases |steps|
  {
    if steps != [] {
      RunOverlooksNothing(Apply(w, steps[0]), steps[1..]);
    }
  }

  /** The account is linked again while a call asks the provider, which turns it down. */
  lemma ErrorOverAGoodToken(rules: Rules) returns (steps: seq<Step>)
    requires !rules.rereads
    ensures Run(QuietStart(rules), steps) && !NothingOverlooked(Exec(QuietStart(rules), steps).log)
  {
    var w;
    steps, w := FirstTakes(Setting(rules, true, 1));
    hide Run, Exec, OrderlyRun;
    var start, refused := QuietStart(rules), Segment(1, Exchange(Refused(Some(404))));
    RunExtends(start, steps, Relink(3600, 20_000));
    steps := steps + [Relink(3600, 20_000)];
    RunExtends(start, steps, refused);
    steps := steps + [refused];
    RunExtends(start, steps, Segment(1, Reread(0)));
    var before := Exec(start, steps);
    steps := steps + [Segment(1, Reread(0))];
    var log := Exec(start, steps).log;
    assert log == before.log + [GaveUp(1, before.row, before.now)];
    assert log[|before.log|] == GaveUp(1, before.row, before.now) && HoldsGood(before.row, before.now);
  }

  /** A provider error surfaces only over a row without a good token, in every run, exactly when the row is read again. */
  lemma RereadIsNeeded(rules: Rules)
    ensures (forall w, steps :: Initial(w) && w.rules == rules && Run(w, steps) ==> NothingOverlooked(Exec(w, steps).log))
       <==> rules.rereads
  {
    if rules.rereads {
      forall w, steps | Initial(w) && w.rules == rules && Run(w, steps) ensures NothingOverlooked(Exec(w, steps).log) {
        RunOverlooksNothing(w, steps);
      }
    } else {
      var steps := ErrorOverAGoodToken(rules);
      assert Initial(QuietStart(rules)) && QuietStart(rules).rules == rules;
    }
  }
}
