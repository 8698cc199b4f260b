/**
 The two actions on a production database over time: writing the baseline, and applying
 what is pending once the baseline is there. Either may be cut off anywhere and started
 again, and a migration may break off halfway and leave its row unfinished.
 */
module BaselineRuns {
  import opened Options
  import opened Baseline

  datatype State = State(
    rows: seq<Name>, unfinished: seq<Name>, marked: seq<Name>, executed: seq<Name>, effects: set<Name>,
    ranOverLater: bool, ranPresent: bool)

  /**
   Writing the baseline with some proofs, cut off after some rows; or applying, guarded by
   a decision on some proofs: so many migrations finish, and the next may break off, with
   or without its effect.
   */
  datatype Step =
    | WriteBaseline(proven: set<Name>, cut: nat)
    | ApplyPending(proven: set<Name>, finished: nat, midway: Option<bool>)

  function Decided(limits: Limits, folders: seq<Name>, s: State, proven: set<Name>): Decision {
    DecisionOf(limits, folders, proven, Some(Registry(s.rows, s.unfinished)))
  }

  /** One of these migrations runs although a later one is recorded. */
  ghost predicate RunsOver(rows: seq<Name>, run: seq<Name>) {
    exists i, n :: 0 <= i < |run| && n in rows + run[..i] && Less(run[i], n)
  }

  function Begun(todo: seq<Name>, finished: nat, midway: Option<bool>): seq<Name> {
    if midway.Some? && finished < |todo| then [todo[finished]] else []
  }

  /** The deploy: every folder without a row, in order, as far as it gets. */
  ghost function Deployed(folders: seq<Name>, s: State, finished: nat, midway: Option<bool>): State {
    var todo := Outside(folders, Names(s.rows));
    var done, begun := CutOff(todo, finished), Begun(todo, finished, midway);
    State(s.rows + done, s.unfinished + begun, s.marked, s.executed + done + begun,
          s.effects + Names(done) + (if midway == Some(true) then Names(begun) else {}),
          s.ranOverLater || RunsOver(s.rows, done + begun),
          s.ranPresent || exists f :: f in done + begun && f in s.effects)
  }

  ghost function Do(limits: Limits, folders: seq<Name>, s: State, step: Step): State {
    var d := Decided(limits, folders, s, step.proven);
    if d.stop.Some? then s
    else match step
      case WriteBaseline(_, cut) =>
        s.(rows := s.rows + CutOff(d.toMark, cut), marked := s.marked + CutOff(d.toMark, cut))
      case ApplyPending(_, finished, midway) =>
        if d.established then Deployed(folders, s, finished, midway) else s
  }

  ghost function Exec(limits: Limits, folders: seq<Name>, s: State, steps: seq<Step>): State
    decreases |steps|
  {
    if steps == [] then s else Exec(limits, folders, Do(limits, folders, s, steps[0]), steps[1..])
  }

  /** No step takes for proven what is not there. */
  ghost predicate SoundRun(limits: Limits, folders: seq<Name>, s: State, steps: seq<Step>)
    decreases |steps|
  {
    steps == [] || (steps[0].proven <= s.effects && SoundRun(limits, folders, Do(limits, folders, s, steps[0]), steps[1..]))
  }

  // --- One step, in terms of the folders -----------------------------------------------

  lemma TodoIsTheRest(folders: seq<Name>, rows: seq<Name>, k: nat)
    requires Folders(folders) && RecordsFirst(folders, rows, k)
    ensures Outside(folders, Names(rows)) == folders[k..]
  {
    var front, back := folders[..k], folders[k..];
    forall n | n in back ensures n !in rows {
      var i :| 0 <= i < |back| && back[i] == n;
      assert back[i] == folders[k + i];
      InFirst(folders, k, k + i);
    }
    assert folders == front + back;
    SplitBySet(front, back, Names(rows));
  }

  /** A step that is let through finds the first k folders recorded and extends them. */
  lemma GoingOn(limits: Limits, folders: seq<Name>, s: State, proven: set<Name>) returns (k: nat)
    requires Folders(folders) && Decided(limits, folders, s, proven).stop.None?
    ensures s.unfinished == [] && Proceeds(limits, folders, proven, s.rows, k) && k <= |folders|
    ensures var d, m := Decided(limits, folders, s, proven), |ProvenPrefix(limits, folders, proven)|;
      && d.toMark == folders[k..Max(k, m)]
      && (d.established <==> 0 < k && m <= k)
    ensures Outside(folders, Names(s.rows)) == folders[k..]
  {
    assert s.unfinished == [];
    hide DecisionOf, OnlyForeseen, Folders, RecordsFirst;
    assert Read(s.rows) == Some(Registry(s.rows, s.unfinished));
    k := ProceedsSomewhere(limits, folders, proven, s.rows);
    Proceeding(limits, folders, proven, s.rows, k);
    TodoIsTheRest(folders, s.rows, k);
  }

  lemma Cutting(folders: seq<Name>, k: nat, h: nat, cut: nat) returns (j: nat)
    requires k <= h <= |folders|
    ensures k <= j <= h && CutOff(folders[k..h], cut) == folders[k..j]
    ensures j == h <==> cut >= h - k
    ensures cut < h - k ==> j == k + cut
  {
    j := if cut <= h - k then k + cut else h;
    assert folders[k..h][..j - k] == folders[k..j];
  }

  lemma Running(folders: seq<Name>, k: nat, finished: nat, midway: Option<bool>) returns (j: nat, end: nat)
    requires k <= |folders|
    ensures k <= j <= end <= |folders| && end <= j + 1
    ensures CutOff(folders[k..], finished) == folders[k..j]
    ensures Begun(folders[k..], finished, midway) == folders[j..end]
    ensures folders[k..j] + folders[j..end] == folders[k..end]
    ensures finished >= |folders| ==> j == |folders|
  {
    assert folders[k..|folders|] == folders[k..];
    j := Cutting(folders, k, |folders|, finished);
    end := j + |Begun(folders[k..], finished, midway)|;
    assert end > j ==> folders[j..end] == [folders[j]];
  }

  /** Cut off between two migrations, a deploy leaves no unfinished row. */
  lemma CutBetweenMigrations(limits: Limits, folders: seq<Name>, s: State, proven: set<Name>, finished: nat)
    requires Folders(folders) && Decided(limits, folders, s, proven).stop.None? && Decided(limits, folders, s, proven).established
    ensures var next, todo := Do(limits, folders, s, ApplyPending(proven, finished, None)), Outside(folders, Names(s.rows));
      var n := if finished <= |todo| then finished else |todo|;
      && next.rows == s.rows + todo[..n] && next.unfinished == [] && next.executed == s.executed + todo[..n]
      && forall f | f in todo[..n] :: f in next.effects
  {
    hide Outside, DecisionFrom, RunsOver;
    assert s.unfinished == [];
    var todo := Outside(folders, Names(s.rows));
    var n := if finished <= |todo| then finished else |todo|;
    assert CutOff(todo, finished) == todo[..n];
    assert s.executed + todo[..n] + [] == s.executed + todo[..n];
  }

  /** A migration that breaks off leaves its row unfinished, and from then on no step changes anything. */
  lemma {:induction false} NothingAfterABreak(limits: Limits, folders: seq<Name>, s: State, proven: set<Name>, finished: nat, effect: bool, later: seq<Step>)
    requires Folders(folders) && Decided(limits, folders, s, proven).stop.None? && Decided(limits, folders, s, proven).established
    requires finished < |Outside(folders, Names(s.rows))|
    ensures var next, todo := Do(limits, folders, s, ApplyPending(proven, finished, Some(effect))), Outside(folders, Names(s.rows));
      && next.rows == s.rows + todo[..finished] && next.unfinished == [todo[finished]]
      && next.executed == s.executed + todo[..finished + 1]
      && (effect ==> todo[finished] in next.effects)
      && Exec(limits, folders, next, later) == next
    decreases |later|
  {
    hide Outside, DecisionFrom, RunsOver;
    var next, todo := Do(limits, folders, s, ApplyPending(proven, finished, Some(effect))), Outside(folders, Names(s.rows));
    assert s.unfinished == [];
    assert todo[..finished] + [todo[finished]] == todo[..finished + 1];
    assert s.executed + todo[..finished] + [todo[finished]] == s.executed + todo[..finished + 1];
    if later != [] {
      assert Decided(limits, folders, next, later[0].proven).stop.Some?;
      NothingAfterABreak(limits, folders, s, proven, finished, effect, later[1..]);
    }
  }

  // --- Every migration once ----------------------------------------------------------

  ghost predicate Once(m: multiset<Name>) {
    forall n :: m[n] <= 1
  }

  function AllRows(s: State): multiset<Name> {
    multiset(s.rows) + multiset(s.unfinished)
  }

  lemma {:induction false} StretchOnce(folders: seq<Name>, k: nat, j: nat)
    requires Folders(folders) && k <= j <= |folders|
    ensures Once(multiset(folders[k..j]))
  {
    if k < j {
      var less, last := folders[k..j - 1], folders[j - 1];
      StretchOnce(folders, k, j - 1);
      assert folders[k..j] == less + [last];
      assert last !in less by {
        if last in less {
          var i :| 0 <= i < |less| && less[i] == last;
          FoldersDiffer(folders, k + i, j - 1);
        }
      }
    }
  }

  lemma NewRowsOnce(folders: seq<Name>, rows: seq<Name>, k: nat, j: nat)
    requires Folders(folders) && RecordsFirst(folders, rows, k) && k <= j <= |folders| && Once(multiset(rows))
    ensures Once(multiset(rows) + multiset(folders[k..j]))
  {
    StretchOnce(folders, k, j);
    var added := folders[k..j];
    forall n ensures (multiset(rows) + multiset(added))[n] <= 1 {
      if n in added {
        var i :| 0 <= i < |added| && added[i] == n;
        assert added[i] == folders[k + i];
        InFirst(folders, k, k + i);
        assert n !in rows;
      }
    }
  }

  lemma NeverOver(folders: seq<Name>, rows: seq<Name>, k: nat, j: nat)
    requires Folders(folders) && RecordsFirst(folders, rows, k) && k <= j <= |folders|
    ensures !RunsOver(rows, folders[k..j])
  {
    var run := folders[k..j];
    forall i, n | 0 <= i < |run| && n in rows + run[..i] ensures !Less(run[i], n) {
      assert folders[..k + i] == folders[..k] + run[..i];
      assert n in folders[..k + i];
      var q :| 0 <= q < k + i && folders[q] == n;
      FoldersDiffer(folders, k + i, q);
    }
  }

  /**
   What every step keeps. A recorded migration has its effect. The rows are those of the
   start, those of the marked and those of the executed, each once. Nothing ran over a
   later one.
   */
  ghost predicate Accounted(start: State, s: State) {
    && (forall f | f in s.rows :: f in s.effects)
    && Once(AllRows(s))
    && AllRows(s) == AllRows(start) + multiset(s.marked) + multiset(s.executed)
    && !s.ranOverLater
  }

  lemma RowsAdded(start: State, s: State, added: seq<Name>, more: seq<Name>)
    requires AllRows(s) == AllRows(start) + multiset(s.marked) + multiset(s.executed)
    ensures var a := s.(rows := s.rows + added, marked := s.marked + added);
      AllRows(a) == AllRows(start) + multiset(a.marked) + multiset(a.executed)
    ensures var b := s.(rows := s.rows + added, unfinished := s.unfinished + more, executed := s.executed + added + more);
      AllRows(b) == AllRows(start) + multiset(b.marked) + multiset(b.executed) && AllRows(b) == AllRows(s) + multiset(added + more)
  {
    assert multiset(s.rows + added) == multiset(s.rows) + multiset(added);
    assert multiset(s.marked + added) == multiset(s.marked) + multiset(added);
    assert multiset(s.unfinished + more) == multiset(s.unfinished) + multiset(more);
    assert multiset(s.executed + added + more) == multiset(s.executed) + multiset(added) + multiset(more);
    assert multiset(added + more) == multiset(added) + multiset(more);
    Regroup(multiset(s.rows), multiset(s.unfinished), AllRows(start), multiset(s.marked), multiset(s.executed),
            multiset(added), multiset(more));
  }

  lemma Regroup(
    rows: multiset<Name>, unfinished: multiset<Name>, start: multiset<Name>, marked: multiset<Name>, executed: multiset<Name>,
    added: multiset<Name>, more: multiset<Name>)
    requires rows + unfinished == start + marked + executed
    ensures (rows + added) + unfinished == start + (marked + added) + executed
    ensures (rows + added) + (unfinished + more) == start + marked + (executed + added + more)
    ensures (rows + added) + (unfinished + more) == (rows + unfinished) + (added + more)
  {
    assert (rows + added) + unfinished == (rows + unfinished) + added;
    assert start + (marked + added) + executed == (start + marked + executed) + added;
    assert start + marked + (executed + added + more) == (start + marked + executed) + (added + more);
  }

  lemma MarkedAreThere(limits: Limits, folders: seq<Name>, proven: set<Name>, k: nat, j: nat)
    requires k <= j <= Max(k, |ProvenPrefix(limits, folders, proven)|) && j <= |folders|
    ensures forall f | f in folders[k..j] :: f in proven
  {
    var prefix := ProvenPrefix(limits, folders, proven);
    forall f | f in folders[k..j] ensures f in proven {
      var i :| k <= i < j && folders[i] == f;
      assert prefix[i] == f && prefix[i] in prefix;
    }
  }

  lemma WriteKeepsAccounts(limits: Limits, folders: seq<Name>, start: State, s: State, step: Step)
    requires Folders(folders) && Accounted(start, s) && step.WriteBaseline? && step.proven <= s.effects
    ensures Accounted(start, Do(limits, folders, s, step))
  {
    hide Decided, Once, AllRows, Outside, ProvenPrefix, Folders, CutOff, Proceeds;
    if Decided(limits, folders, s, step.proven).stop.None? {
      var k := GoingOn(limits, folders, s, step.proven);
      var h := Max(k, |ProvenPrefix(limits, folders, step.proven)|);
      var j := Cutting(folders, k, h, step.cut);
      MarkedAreThere(limits, folders, step.proven, k, j);
      RowsAdded(start, s, folders[k..j], []);
      WriteOnce(limits, folders, s, step.proven, k, j);
    }
  }

  lemma WriteOnce(limits: Limits, folders: seq<Name>, s: State, proven: set<Name>, k: nat, j: nat)
    requires Folders(folders) && Once(AllRows(s)) && s.unfinished == []
    requires Proceeds(limits, folders, proven, s.rows, k) && k <= j <= |folders|
    ensures Once(AllRows(s.(rows := s.rows + folders[k..j], marked := s.marked + folders[k..j])))
    ensures Once(AllRows(s) + multiset(folders[k..j]))
    ensures !RunsOver(s.rows, folders[k..j])
  {
    assert AllRows(s) == multiset(s.rows);
    assert multiset(s.rows + folders[k..j]) == multiset(s.rows) + multiset(folders[k..j]);
    NewRowsOnce(folders, s.rows, k, j);
    NeverOver(folders, s.rows, k, j);
  }

  lemma ApplyKeepsAccounts(limits: Limits, folders: seq<Name>, start: State, s: State, step: Step)
    requires Folders(folders) && Accounted(start, s) && step.ApplyPending? && step.proven <= s.effects
    ensures Accounted(start, Do(limits, folders, s, step))
  {
    hide Decided, Once, Outside, ProvenPrefix, Folders, CutOff, Proceeds, Begun, RunsOver;
    var d := Decided(limits, folders, s, step.proven);
    if d.stop.None? && d.established {
      var k := GoingOn(limits, folders, s, step.proven);
      var j, end := Running(folders, k, step.finished, step.midway);
      RowsAdded(start, s, folders[k..j], folders[j..end]);
      WriteOnce(limits, folders, s, step.proven, k, end);
    }
  }

  lemma {:induction false} AccountsKept(limits: Limits, folders: seq<Name>, start: State, s: State, steps: seq<Step>)
    requires Folders(folders) && Accounted(start, s) && SoundRun(limits, folders, s, steps)
    ensures Accounted(start, Exec(limits, folders, s, steps))
    decreases |steps|
  {
    if steps != [] {
      hide Accounted, Do, Folders;
      if steps[0].WriteBaseline? {
        WriteKeepsAccounts(limits, folders, start, s, steps[0]);
      } else {
        ApplyKeepsAccounts(limits, folders, start, s, steps[0]);
      }
      AccountsKept(limits, folders, start, Do(limits, folders, s, steps[0]), steps[1..]);
    }
  }

  /**
   Over any sequence of cut-off markings and guarded deploys with sound proofs, every
   migration is recorded from the start, or marked, or executed: at most one of these,
   and once. The registry holds just these, what is recorded is there, and nothing runs
   over a later one.
   */
  lemma {:induction false} EveryMigrationOnce(limits: Limits, folders: seq<Name>, start: State, steps: seq<Step>)
    requires Folders(folders) && SoundRun(limits, folders, start, steps)
    requires start.marked == [] && start.executed == [] && !start.ranOverLater
    requires Once(AllRows(start)) && forall f | f in start.rows :: f in start.effects
    ensures var s := Exec(limits, folders, start, steps);
      && Once(AllRows(start) + multiset(s.marked) + multiset(s.executed))
      && AllRows(s) == AllRows(start) + multiset(s.marked) + multiset(s.executed)
      && (forall f | f in s.rows :: f in s.effects)
      && !s.ranOverLater
  {
    var none: seq<Name> := [];
    assert multiset(none) == multiset{};
    assert AllRows(start) == AllRows(start) + multiset(none) + multiset(none);
    AccountsKept(limits, folders, start, start, steps);
  }

  // --- When a migration that is there is run again ---------------------------------------

  /** What proofs can find: the effects of the migrations of the baseline. */
  function Findable(limits: Limits, effects: set<Name>): set<Name> {
    set n | n in effects && !Less(limits.last, n)
  }

  /** Every step finds what there is to find. */
  ghost predicate PerfectRun(limits: Limits, folders: seq<Name>, s: State, steps: seq<Step>)
    decreases |steps|
  {
    steps == [] ||
    (steps[0].proven == Findable(limits, s.effects) && PerfectRun(limits, folders, Do(limits, folders, s, steps[0]), steps[1..]))
  }

  /** An unrecorded migration is there, and itself or an earlier one cannot be marked. */
  ghost predicate Gap(limits: Limits, folders: seq<Name>, s: State, proven: set<Name>) {
    exists f, g :: f in folders && g in folders && f in s.effects && f !in s.rows && !Less(f, g) && !Markable(limits, proven, g)
  }

  /** With these proofs the script goes on, there is something to start the registry with, and there is a gap. */
  ghost predicate CanRunAgain(limits: Limits, folders: seq<Name>, s: State, proven: set<Name>) {
    && Decided(limits, folders, s, proven).stop.None?
    && (s.rows != [] || (folders != [] && Markable(limits, proven, folders[0])))
    && Gap(limits, folders, s, proven)
  }

  /** With k folders recorded, what is there past the provable stretch makes a gap, and only that. */
  lemma GapIsPast(limits: Limits, folders: seq<Name>, s: State, proven: set<Name>, k: nat)
    requires Folders(folders) && RecordsFirst(folders, s.rows, k)
    ensures var h := Max(k, |ProvenPrefix(limits, folders, proven)|);
      h <= |folders| && (Gap(limits, folders, s, proven) <==> exists i :: h <= i < |folders| && folders[i] in s.effects)
  {
    var prefix := ProvenPrefix(limits, folders, proven);
    var m := |prefix|;
    forall q | 0 <= q < m ensures Markable(limits, proven, folders[q]) {
      assert prefix[q] in prefix;
    }
    if f, g :| f in folders && g in folders && f in s.effects && f !in s.rows && !Less(f, g) && !Markable(limits, proven, g) {
      var i :| 0 <= i < |folders| && folders[i] == f;
      var j :| 0 <= j < |folders| && folders[j] == g;
      FoldersDiffer(folders, i, j);
      InFirst(folders, k, i);
      assert Max(k, m) <= i;
    }
    if i :| Max(k, m) <= i < |folders| && folders[i] in s.effects {
      FoldersDiffer(folders, i, m);
      InFirst(folders, k, i);
      var f, g := folders[i], folders[m];
      assert f in folders && g in folders && f in s.effects && f !in s.rows && !Less(f, g) && !Markable(limits, proven, g);
    }
  }

  lemma EmptyStart(limits: Limits, folders: seq<Name>, s: State, proven: set<Name>, k: nat)
    requires RecordsFirst(folders, s.rows, k)
    ensures s.rows != [] || (folders != [] && Markable(limits, proven, folders[0]))
       <==> 0 < k || 0 < |ProvenPrefix(limits, folders, proven)|
  {
    RowsAreThere(folders, s.rows, k);
  }

  /** Past h folders only what may be missing is pending, and something of it is there. */
  ghost predicate PresentPast(limits: Limits, folders: seq<Name>, s: State, h: nat) {
    && 0 < h <= |folders|
    && (forall n | n in folders[h..] :: !Less(n, limits.mayLackFrom))
    && exists i :: h <= i < |folders| && folders[i] in s.effects
  }

  lemma WhereItRunsAgain(limits: Limits, folders: seq<Name>, s: State, proven: set<Name>, k: nat)
    requires Folders(folders) && s.unfinished == [] && RecordsFirst(folders, s.rows, k)
    ensures CanRunAgain(limits, folders, s, proven) <==>
      PresentPast(limits, folders, s, Max(k, |ProvenPrefix(limits, folders, proven)|))
  {
    EmptyStart(limits, folders, s, proven, k);
    GapIsPast(limits, folders, s, proven, k);
    assert Read(s.rows) == Some(Registry(s.rows, s.unfinished));
    hide DecisionOf, ProvenPrefix, Folders, RecordsFirst, Gap, Markable;
    GoesOnWhenForeseen(limits, folders, s, proven, k);
  }

  lemma GoesOnWhenForeseen(limits: Limits, folders: seq<Name>, s: State, proven: set<Name>, k: nat)
    requires Folders(folders) && s.unfinished == [] && RecordsFirst(folders, s.rows, k)
    ensures Decided(limits, folders, s, proven).stop.None? <==> OnlyForeseen(limits, folders, proven, k)
  {
    assert Read(s.rows) == Some(Registry(s.rows, s.unfinished));
    hide DecisionOf, ProvenPrefix, Folders, RecordsFirst, OnlyForeseen;
    if Decided(limits, folders, s, proven).stop.None? {
      var q := ProceedsSomewhere(limits, folders, proven, s.rows);
      OnePrefix(folders, s.rows, q, k);
    }
    if OnlyForeseen(limits, folders, proven, k) {
      Proceeding(limits, folders, proven, s.rows, k);
    }
  }

  /** A deploy that goes on over nothing that is there leaves nothing to run again. */
  lemma DeployLeavesNothing(
    limits: Limits, folders: seq<Name>, s: State, k: nat, j: nat, end: nat, finished: nat, midway: Option<bool>)
    requires Folders(folders) && RecordsFirst(folders, s.rows, k) && k <= j <= end <= |folders|
    requires !exists i :: k <= i < |folders| && folders[i] in s.effects
    requires CutOff(Outside(folders, Names(s.rows)), finished) == folders[k..j]
    requires Begun(Outside(folders, Names(s.rows)), finished, midway) == folders[j..end]
    ensures var next := Deployed(folders, s, finished, midway);
      next.ranPresent == s.ranPresent && forall proven :: !CanRunAgain(limits, folders, next, proven)
  {
    hide CutOff, Begun, Outside, RunsOver, ProvenPrefix, DecisionFrom, Markable;
    var next := Deployed(folders, s, finished, midway);
    assert !exists f :: f in folders[k..j] + folders[j..end] && f in s.effects;
    if j < end {
      assert next.unfinished != [];
      assert Failures(Some(Registry(next.rows, next.unfinished))) != [];
    } else {
      forall f | f in folders && f in next.effects ensures f in next.rows {
        var i :| 0 <= i < |folders| && folders[i] == f;
        assert i < k ==> f in folders[..k];
      }
    }
  }

  lemma ApplyNeverRunsAgain(limits: Limits, folders: seq<Name>, s: State, proven: set<Name>, finished: nat, midway: Option<bool>)
    requires Folders(folders) && !CanRunAgain(limits, folders, s, proven)
    ensures var next := Do(limits, folders, s, ApplyPending(proven, finished, midway));
      next.ranPresent == s.ranPresent && (next == s || forall any :: !CanRunAgain(limits, folders, next, any))
  {
    var d := Decided(limits, folders, s, proven);
    if d.stop.None? && d.established {
      hide DecisionOf, ProvenPrefix, Folders, Outside, CutOff, Begun, RunsOver, RecordsFirst, Gap;
      var k := GoingOn(limits, folders, s, proven);
      WhereItRunsAgain(limits, folders, s, proven, k);
      var j, end := Running(folders, k, finished, midway);
      hide CanRunAgain;
      DeployLeavesNothing(limits, folders, s, k, j, end, finished, midway);
    }
  }

  // With proofs that find everything.

  lemma RowsKeepGapAway(limits: Limits, folders: seq<Name>, s: State, next: State, proven: set<Name>)
    requires !Gap(limits, folders, s, proven) && next.effects == s.effects && forall f | f in s.rows :: f in next.rows
    ensures !Gap(limits, folders, next, proven)
  {
    hide Markable;
    forall f, g | f in folders && g in folders && f in s.effects && f !in next.rows && !Less(f, g)
      ensures Markable(limits, proven, g)
    {
      assert f !in s.rows;
    }
  }

  lemma WriteNeverRunsAgain(limits: Limits, folders: seq<Name>, s: State, proven: set<Name>, cut: nat)
    requires Folders(folders) && !CanRunAgain(limits, folders, s, proven)
    ensures var next := Do(limits, folders, s, WriteBaseline(proven, cut));
      next.ranPresent == s.ranPresent && next.effects == s.effects && !CanRunAgain(limits, folders, next, proven)
  {
    hide Decided, Gap, ProvenPrefix, Folders, Outside, Names, CutOff, Markable, OnlyForeseen, RecordsFirst;
    var next := Do(limits, folders, s, WriteBaseline(proven, cut));
    if Decided(limits, folders, s, proven).stop.None? {
      var k := GoingOn(limits, folders, s, proven);
      EmptyStart(limits, folders, s, proven, k);
      var j := Cutting(folders, k, Max(k, |ProvenPrefix(limits, folders, proven)|), cut);
      if Gap(limits, folders, s, proven) {
        assert folders[k..j] == [] && s.rows + [] == s.rows && s.marked + [] == s.marked;
        assert next == s;
      } else {
        RowsKeepGapAway(limits, folders, s, next, proven);
      }
    }
  }

  lemma {:induction false} NeverRunsAgain(limits: Limits, folders: seq<Name>, s: State, steps: seq<Step>)
    requires Folders(folders) && !CanRunAgain(limits, folders, s, Findable(limits, s.effects)) && PerfectRun(limits, folders, s, steps)
    ensures Exec(limits, folders, s, steps).ranPresent == s.ranPresent
    decreases |steps|
  {
    if steps != [] {
      hide CanRunAgain, Do, Folders, Findable;
      match steps[0] {
        case WriteBaseline(proven, cut) => WriteNeverRunsAgain(limits, folders, s, proven, cut);
        case ApplyPending(proven, finished, midway) => ApplyNeverRunsAgain(limits, folders, s, proven, finished, midway);
      }
      NeverRunsAgain(limits, folders, Do(limits, folders, s, steps[0]), steps[1..]);
    }
  }

  /** The two actions, undisturbed. */
  function BothActions(folders: seq<Name>, proven: set<Name>): seq<Step> {
    [WriteBaseline(proven, |folders|), ApplyPending(proven, |folders|, None)]
  }

  lemma BothRunAgain(limits: Limits, folders: seq<Name>, s: State, proven: set<Name>)
    requires Folders(folders)
    ensures var steps := BothActions(folders, proven);
      CanRunAgain(limits, folders, s, proven) ==>
      && Exec(limits, folders, s, steps).ranPresent
      && (proven <= s.effects ==> SoundRun(limits, folders, s, steps))
      && (proven == Findable(limits, s.effects) ==> PerfectRun(limits, folders, s, steps))
  {
    hide DecisionOf, ProvenPrefix, Folders, Outside, Gap, RecordsFirst, OnlyForeseen, Findable;
    if CanRunAgain(limits, folders, s, proven) {
      var write, apply := WriteBaseline(proven, |folders|), ApplyPending(proven, |folders|, None);
      var k := GoingOn(limits, folders, s, proven);
      var h := Max(k, |ProvenPrefix(limits, folders, proven)|);
      EmptyStart(limits, folders, s, proven, k);
      GapIsPast(limits, folders, s, proven, k);
      var i :| h <= i < |folders| && folders[i] in s.effects;
      var j := Cutting(folders, k, h, |folders|);
      ProceedsFurther(limits, folders, proven, s.rows, k, h - k);
      var mid := Do(limits, folders, s, write);
      assert folders[k..k + (h - k)] == folders[k..h];
      assert mid.rows == s.rows + folders[k..h] && mid.unfinished == [] && mid.effects == s.effects;
      DeployRunsPresent(limits, folders, mid, proven, h, i);
      TwoSteps(limits, folders, s, write, apply);
    }
  }

  lemma DeployRunsPresent(limits: Limits, folders: seq<Name>, s: State, proven: set<Name>, h: nat, i: nat)
    requires Folders(folders) && s.unfinished == [] && h <= i < |folders| && folders[i] in s.effects
    requires Proceeds(limits, folders, proven, s.rows, h) && 0 < h && |ProvenPrefix(limits, folders, proven)| <= h
    ensures Do(limits, folders, s, ApplyPending(proven, |folders|, None)).ranPresent
  {
    hide DecisionOf, ProvenPrefix, Folders, Outside, RecordsFirst, OnlyForeseen, RunsOver;
    Proceeding(limits, folders, proven, s.rows, h);
    assert Read(s.rows) == Some(Registry(s.rows, s.unfinished));
    TodoIsTheRest(folders, s.rows, h);
    var last, end := Running(folders, h, |folders|, None);
    hide CutOff, Begun;
    assert (folders[h..last] + folders[last..end])[i - h] == folders[i];
  }

  lemma TwoSteps(limits: Limits, folders: seq<Name>, s: State, a: Step, b: Step)
    ensures var mid := Do(limits, folders, s, a);
      && Exec(limits, folders, s, [a, b]) == Do(limits, folders, mid, b)
      && (a.proven <= s.effects && b.proven <= mid.effects ==> SoundRun(limits, folders, s, [a, b]))
      && (a.proven == Findable(limits, s.effects) && b.proven == Findable(limits, mid.effects) ==> PerfectRun(limits, folders, s, [a, b]))
  {
    hide Do, Findable;
    var steps, mid := [a, b], Do(limits, folders, s, a);
    assert steps[1..] == [b] && [b][1..] == [];
    assert Exec(limits, folders, mid, [b]) == Exec(limits, folders, Do(limits, folders, mid, b), []);
    assert b.proven <= mid.effects ==> SoundRun(limits, folders, mid, [b]);
    assert b.proven == Findable(limits, mid.effects) ==> PerfectRun(limits, folders, mid, [b]);
  }

  /**
   With proofs that find all there is to find, some run executes a migration whose effect
   is already there if and only if the script goes on, has something to start with, and
   an unrecorded migration is there with an earlier one, or itself, not to be found.
   */
  lemma RunsAgainExactlyWhen(limits: Limits, folders: seq<Name>, s: State)
    requires Folders(folders) && !s.ranPresent
    ensures (exists steps :: PerfectRun(limits, folders, s, steps) && Exec(limits, folders, s, steps).ranPresent)
       <==> CanRunAgain(limits, folders, s, Findable(limits, s.effects))
  {
    if CanRunAgain(limits, folders, s, Findable(limits, s.effects)) {
      BothRunAgain(limits, folders, s, Findable(limits, s.effects));
    } else {
      forall steps | PerfectRun(limits, folders, s, steps) ensures !Exec(limits, folders, s, steps).ranPresent {
        NeverRunsAgain(limits, folders, s, steps);
      }
    }
  }

  // With proofs that may miss what is there.

  /** Some sound proofs would let a migration run again. */
  ghost predicate MayRunAgain(limits: Limits, folders: seq<Name>, s: State) {
    exists proven :: proven <= s.effects && CanRunAgain(limits, folders, s, proven)
  }

  /** Proofs of exactly the first j of a provable stretch. */
  lemma PartOfAProof(limits: Limits, folders: seq<Name>, proven: set<Name>, j: nat)
    requires Folders(folders) && j <= |ProvenPrefix(limits, folders, proven)|
    ensures ProvenPrefix(limits, folders, Names(folders[..j])) == folders[..j] && Names(folders[..j]) <= proven
  {
    var prefix, part := ProvenPrefix(limits, folders, proven), ProvenPrefix(limits, folders, Names(folders[..j]));
    forall i | 0 <= i < j ensures Markable(limits, proven, folders[i]) && folders[i] in folders[..j] {
      assert prefix[i] in prefix;
      assert folders[..j][i] == folders[i];
    }
    if j < |part| {
      assert part[j] in part;
      InFirst(folders, j, j);
    }
  }

  /** What could run again after a marking that was cut off could already run again before it. */
  lemma CutChangesNothing(
    limits: Limits, folders: seq<Name>, s: State, next: State, proven: set<Name>, k: nat, j: nat, later: set<Name>)
    returns (earlier: set<Name>)
    requires Folders(folders) && s.unfinished == [] && RecordsFirst(folders, s.rows, k)
    requires k <= j <= Max(k, |ProvenPrefix(limits, folders, proven)|) && j <= |folders|
    requires next.unfinished == [] && next.rows == s.rows + folders[k..j] && next.effects == s.effects
    requires proven <= s.effects && later <= s.effects
    ensures CanRunAgain(limits, folders, next, later) ==> earlier <= s.effects && CanRunAgain(limits, folders, s, earlier)
  {
    hide ProvenPrefix, Folders, RecordsFirst, CanRunAgain, Names, PresentPast;
    RecordsMore(folders, s.rows, k, j);
    WhereItRunsAgain(limits, folders, next, later, j);
    SamePast(limits, folders, s, next, Max(j, |ProvenPrefix(limits, folders, later)|));
    if j == k || j <= |ProvenPrefix(limits, folders, later)| {
      earlier := later;
    } else {
      earlier := Names(folders[..j]);
      PartOfAProof(limits, folders, proven, j);
    }
    WhereItRunsAgain(limits, folders, s, earlier, k);
  }

  lemma SamePast(limits: Limits, folders: seq<Name>, s: State, next: State, h: nat)
    requires next.effects == s.effects
    ensures PresentPast(limits, folders, next, h) <==> PresentPast(limits, folders, s, h)
  {
  }

  lemma RecordsMore(folders: seq<Name>, rows: seq<Name>, k: nat, j: nat)
    requires RecordsFirst(folders, rows, k) && k <= j <= |folders|
    ensures RecordsFirst(folders, rows + folders[k..j], j)
  {
    assert folders[..j] == folders[..k] + folders[k..j];
  }

  lemma SoundWriteNeverRunsAgain(limits: Limits, folders: seq<Name>, s: State, proven: set<Name>, cut: nat)
    requires Folders(folders) && !MayRunAgain(limits, folders, s) && proven <= s.effects
    ensures var next := Do(limits, folders, s, WriteBaseline(proven, cut));
      next.ranPresent == s.ranPresent && !MayRunAgain(limits, folders, next)
  {
    hide Decided, ProvenPrefix, Folders, Outside, CutOff, OnlyForeseen, RecordsFirst, CanRunAgain;
    var next := Do(limits, folders, s, WriteBaseline(proven, cut));
    if Decided(limits, folders, s, proven).stop.None? {
      var k := GoingOn(limits, folders, s, proven);
      var j := Cutting(folders, k, Max(k, |ProvenPrefix(limits, folders, proven)|), cut);
      forall later | later <= next.effects ensures !CanRunAgain(limits, folders, next, later) {
        if CanRunAgain(limits, folders, next, later) {
          var earlier := CutChangesNothing(limits, folders, s, next, proven, k, j, later);
          assert false;
        }
      }
    }
  }

  lemma {:induction false} SoundlyNeverRunsAgain(limits: Limits, folders: seq<Name>, s: State, steps: seq<Step>)
    requires Folders(folders) && !MayRunAgain(limits, folders, s) && SoundRun(limits, folders, s, steps)
    ensures Exec(limits, folders, s, steps).ranPresent == s.ranPresent
    decreases |steps|
  {
    if steps != [] {
      hide CanRunAgain, Do, Folders;
      match steps[0] {
        case WriteBaseline(proven, cut) => SoundWriteNeverRunsAgain(limits, folders, s, proven, cut);
        case ApplyPending(proven, finished, midway) => ApplyNeverRunsAgain(limits, folders, s, proven, finished, midway);
      }
      SoundlyNeverRunsAgain(limits, folders, Do(limits, folders, s, steps[0]), steps[1..]);
    }
  }

  /**
   With proofs that may miss what is there, and miss other things each time, some run
   executes a migration whose effect is already there if and only if some proofs of what
   is there would let it at once.
   */
  lemma SoundlyRunsAgainExactlyWhen(limits: Limits, folders: seq<Name>, s: State)
    requires Folders(folders) && !s.ranPresent
    ensures (exists steps :: SoundRun(limits, folders, s, steps) && Exec(limits, folders, s, steps).ranPresent)
       <==> MayRunAgain(limits, folders, s)
  {
    if MayRunAgain(limits, folders, s) {
      var proven :| proven <= s.effects && CanRunAgain(limits, folders, s, proven);
      BothRunAgain(limits, folders, s, proven);
    } else {
      forall steps | SoundRun(limits, folders, s, steps) ensures !Exec(limits, folders, s, steps).ranPresent {
        SoundlyNeverRunsAgain(limits, folders, s, steps);
      }
    }
  }

  // --- An instance with the limits and the names that ship ------------------------------

  const GUARD: Name := "20260922000000_pricing_alignment_guard"
  const SHIPPING: Name := "20260923120000_shipping_costs"

  /** Three migrations that follow each other; the first and the third are there, the second is not. */
  const SHIPPED: seq<Name> := [GUARD, LIMITS.mayLackFrom, SHIPPING]
  const ALIGNMENT_MISSING := State([], [], [], [], {GUARD, SHIPPING}, false, false)

  lemma GuardBeforeAlignment()
    ensures GUARD != "" && Less(GUARD, MAY_LACK_FROM)
  {
    hide Less;
    assert GUARD[..7] == "2026092" && MAY_LACK_FROM[7] == '3' && forall i | 0 <= i < 7 :: MAY_LACK_FROM[i] == "2026092"[i];
    FirstDifferenceDecides(GUARD, MAY_LACK_FROM, 7);
  }

  lemma AlignmentBeforeShipping()
    ensures Less(MAY_LACK_FROM, SHIPPING)
  {
    hide Less;
    assert SHIPPING[..8] == "20260923" && SHIPPING[8] == '1' && forall i | 0 <= i < 8 :: MAY_LACK_FROM[i] == "20260923"[i];
    FirstDifferenceDecides(MAY_LACK_FROM, SHIPPING, 8);
  }

  lemma ShippingBeforePlans()
    ensures Less(SHIPPING, LAST)
  {
    hide Less;
    assert SHIPPING[..7] == "2026092" && LAST[7] == '6' && forall i | 0 <= i < 7 :: LAST[i] == "2026092"[i];
    FirstDifferenceDecides(SHIPPING, LAST, 7);
  }

  lemma ShippedInOrder()
    ensures GUARD != "" && Less(GUARD, LIMITS.mayLackFrom) && Less(LIMITS.mayLackFrom, SHIPPING) && Less(GUARD, SHIPPING) && Less(SHIPPING, LIMITS.last)
  {
    hide Less, GUARD, SHIPPING, LAST, MAY_LACK_FROM;
    GuardBeforeAlignment();
    AlignmentBeforeShipping();
    ShippingBeforePlans();
    LessIsTransitive(GUARD, LIMITS.mayLackFrom, SHIPPING);
  }

  /** The shipping costs, already there while nothing has run, would be executed again after the missing alignment. */
  lemma ShippingCostsRunAgain()
    ensures ALIGNMENT_MISSING.effects == {GUARD, SHIPPING} && !ALIGNMENT_MISSING.ranPresent && !ALIGNMENT_MISSING.ranOverLater
    ensures Folders(SHIPPED) && CanRunAgain(LIMITS, SHIPPED, ALIGNMENT_MISSING, Findable(LIMITS, ALIGNMENT_MISSING.effects))
  {
    hide GUARD, SHIPPING, LAST, MAY_LACK_FROM;
    ShippedInOrder();
    LessIsTransitive(GUARD, SHIPPING, LIMITS.last);
    LessIsStrict(GUARD, LIMITS.last);
    LessIsStrict(SHIPPING, LIMITS.last);
    LessIsStrict(GUARD, LIMITS.mayLackFrom);
    LessIsStrict(LIMITS.mayLackFrom, SHIPPING);
    ThreeRunAgain(GUARD, LIMITS.mayLackFrom, SHIPPING, LIMITS);
  }

  lemma ThreeRunAgain(a: Name, b: Name, c: Name, limits: Limits)
    requires Folders([a, b, c]) && limits.mayLackFrom == b && !Less(limits.last, a) && !Less(limits.last, c) && !Less(c, b)
    ensures var s := State([], [], [], [], {a, c}, false, false);
      CanRunAgain(limits, [a, b, c], s, Findable(limits, s.effects))
  {
    var folders, s := [a, b, c], State([], [], [], [], {a, c}, false, false);
    var found := Findable(limits, s.effects);
    FoldersDiffer(folders, 0, 1);
    FoldersDiffer(folders, 1, 2);
    FoldersDiffer(folders, 1, 1);
    hide Less, Folders;
    assert folders[1..] == [b, c] && [b, c][0] == b;
    assert ProvenPrefix(limits, folders[1..], found) == [];
    assert ProvenPrefix(limits, folders, found) == [a];
    assert RecordsFirst(folders, s.rows, 0);
    assert folders[2] in s.effects;
    WhereItRunsAgain(limits, folders, s, found, 0);
  }
}
