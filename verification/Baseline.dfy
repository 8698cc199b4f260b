/**
 The baseline of a database that was migrated by hand: which migrations may be recorded
 as applied without being executed, and what `migrate deploy` then does with the rest.
 */
module Baseline {
  import opened Options

  type Name = string

  // --- The order of names ----------------------------------------------------

  /** The order of `<` and of `sort` on strings. */
  predicate Less(a: Name, b: Name) {
    b != "" && (a == "" || a[0] < b[0] || (a[0] == b[0] && Less(a[1..], b[1..])))
  }

  /** What that order is: a proper beginning comes first, else the first character that differs decides. */
  lemma {:induction false} LessMeans(a: Name, b: Name)
    ensures Less(a, b) <==>
      (a <= b && a != b) || exists k :: 0 <= k < |a| && k < |b| && a[..k] == b[..k] && a[k] < b[k]
  {
    if a != "" && b != "" {
      LessMeans(a[1..], b[1..]);
      assert a[..0] == b[..0];
      if a[0] == b[0] {
        assert a <= b <==> a[1..] <= b[1..] by {
          assert a == [a[0]] + a[1..] && b == [b[0]] + b[1..];
        }
        forall k | 0 <= k < |a| - 1 && k < |b| - 1
          ensures a[1..][..k] == b[1..][..k] <==> a[..k + 1] == b[..k + 1]
          ensures a[1..][k] == a[k + 1] && b[1..][k] == b[k + 1]
        {
          assert a[..k + 1] == [a[0]] + a[1..][..k] && b[..k + 1] == [b[0]] + b[1..][..k];
          assert a[..k + 1][1..] == a[1..][..k] && b[..k + 1][1..] == b[1..][..k];
        }
        if Less(a, b) && !(a <= b) {
          var k :| 0 <= k < |a[1..]| && k < |b[1..]| && a[1..][..k] == b[1..][..k] && a[1..][k] < b[1..][k];
          assert a[..k + 1] == b[..k + 1] && a[k + 1] < b[k + 1];
        }
        if k :| 0 <= k < |a| && k < |b| && a[..k] == b[..k] && a[k] < b[k] {
          assert a[1..][..k - 1] == b[1..][..k - 1] && a[1..][k - 1] < b[1..][k - 1];
        }
      }
    }
  }

  lemma {:induction false} LessIsTransitive(a: Name, b: Name, c: Name)
    requires Less(a, b) && Less(b, c)
    ensures Less(a, c)
  {
    if a != "" && a[0] == b[0] == c[0] {
      LessIsTransitive(a[1..], b[1..], c[1..]);
    }
  }

  lemma {:induction false} LessIsStrict(a: Name, b: Name)
    requires Less(a, b)
    ensures !Less(b, a) && a != b
  {
    if a != "" && a[0] == b[0] {
      LessIsStrict(a[1..], b[1..]);
    }
  }

  lemma {:induction false} LessIsTotal(a: Name, b: Name)
    ensures a == b || Less(a, b) || Less(b, a)
  {
    if a != "" && b != "" && a[0] == b[0] {
      LessIsTotal(a[1..], b[1..]);
      assert a == [a[0]] + a[1..] && b == [b[0]] + b[1..];
    }
  }

  /** Folder names as `cartelleMigrazioni` lists them. */
  ghost predicate Folders(names: seq<Name>) {
    && (forall i, j | 0 <= i < j < |names| :: Less(names[i], names[j]))
    && (forall i | 0 <= i < |names| :: names[i] != "")
  }

  lemma FoldersDiffer(names: seq<Name>, i: nat, j: nat)
    requires Folders(names) && i < |names| && j < |names|
    ensures names[i] == names[j] <==> i == j
    ensures Less(names[i], names[j]) <==> i < j
  {
    if i < j { LessIsStrict(names[i], names[j]); }
    if j < i { LessIsStrict(names[j], names[i]); }
    if Less(names[i], names[i]) { LessIsStrict(names[i], names[i]); }
  }

  // --- What is known --------------------------------------------------------------

  /** The last migration the baseline may record, and the first that may be missing. */
  datatype Limits = Limits(last: Name, mayLackFrom: Name)

  /** As the app ships them. */
  const LAST: Name := "20260926000000_plans_basic_growth_scale_core"
  const MAY_LACK_FROM: Name := "20260923000000_pricing_alignment"
  const LIMITS := Limits(LAST, MAY_LACK_FROM)

  datatype Registry = Registry(concluded: seq<Name>, failed: seq<Name>)

  datatype Proof = Structure | Query

  /** `provateDa`: structural proofs stand or fall together, the others on their own answer. */
  method ProvenBy(proofs: seq<(Name, Proof)>, structureOk: bool, answers: map<Name, bool>) returns (proven: set<Name>)
    ensures forall n :: n in proven <==>
      exists p :: (n, p) in proofs && if p.Structure? then structureOk else n in answers && answers[n]
  {
    proven := {};
    for k := 0 to |proofs|
      invariant forall n :: n in proven <==>
        exists p :: (n, p) in proofs[..k] && if p.Structure? then structureOk else n in answers && answers[n]
    {
      var (name, proof) := proofs[k];
      assert proofs[..k + 1] == proofs[..k] + [(name, proof)];
      assert (name, proof) in proofs[..k + 1];
      if (if proof.Structure? then structureOk else name in answers && answers[name]) {
        proven := proven + {name};
      }
    }
    assert proofs[..|proofs|] == proofs;
  }

  function Within(names: seq<Name>, s: set<Name>): (kept: seq<Name>)
    ensures forall n :: n in kept <==> n in names && n in s
  {
    if names == [] then [] else (if names[0] in s then [names[0]] else []) + Within(names[1..], s)
  }

  function Outside(names: seq<Name>, s: set<Name>): (kept: seq<Name>)
    ensures forall n :: n in kept <==> n in names && n !in s
  {
    if names == [] then [] else (if names[0] in s then [] else [names[0]]) + Outside(names[1..], s)
  }

  function Below(names: seq<Name>, bound: Name): (kept: seq<Name>)
    ensures forall n :: n in kept <==> n in names && Less(n, bound)
  {
    if names == [] then [] else (if Less(names[0], bound) then [names[0]] else []) + Below(names[1..], bound)
  }

  function Names(names: seq<Name>): (s: set<Name>)
    ensures forall n :: n in s <==> n in names
  {
    set n | n in names
  }

  lemma {:induction false} OutsideNone(names: seq<Name>, s: set<Name>)
    requires forall n | n in names :: n in s
    ensures Outside(names, s) == []
  {
    if names != [] {
      OutsideNone(names[1..], s);
    }
  }

  lemma {:induction false} AllOutside(names: seq<Name>, s: set<Name>)
    requires forall n | n in names :: n !in s
    ensures Within(names, s) == []
    ensures Outside(names, s) == names
  {
    if names != [] {
      assert names[0] in names;
      assert names == [names[0]] + names[1..];
      AllOutside(names[1..], s);
      hide Within, Outside;
    }
  }

  /** A list split in a front that is in the set and a back that is not. */
  lemma {:induction false} SplitBySet(front: seq<Name>, back: seq<Name>, s: set<Name>)
    requires (forall n | n in front :: n in s) && (forall n | n in back :: n !in s)
    ensures Within(front + back, s) == front && Outside(front + back, s) == back
  {
    if front == [] {
      assert front + back == back;
      AllOutside(back, s);
    } else {
      assert (front + back)[1..] == front[1..] + back;
      assert front[0] in front;
      SplitBySet(front[1..], back, s);
    }
  }

  datatype RegistryState = RegistryState(registered: seq<Name>, holes: seq<Name>, unknown: seq<Name>)

  function Concluded(registry: Option<Registry>): seq<Name> {
    match registry
    case None => []
    case Some(r) => r.concluded
  }

  function Failures(registry: Option<Registry>): seq<Name> {
    match registry
    case None => []
    case Some(r) => r.failed
  }

  /** `statoRegistro`: what is recorded, what is missing before it, what has no folder. */
  function StateOf(folders: seq<Name>, concluded: seq<Name>): RegistryState {
    var registered := Within(folders, Names(concluded));
    var holes :=
      if registered == [] || registered[|registered| - 1] == "" then []
      else Outside(Below(folders, registered[|registered| - 1]), Names(concluded));
    RegistryState(registered, holes, Outside(concluded, Names(folders)))
  }

  /** The registry records exactly the first k folders. */
  ghost predicate RecordsFirst(folders: seq<Name>, concluded: seq<Name>, k: nat) {
    && k <= |folders|
    && (forall n :: n in concluded <==> n in folders[..k])
  }

  lemma InFirst(folders: seq<Name>, k: nat, i: nat)
    requires Folders(folders) && k <= |folders| && i < |folders|
    ensures folders[i] in folders[..k] <==> i < k
  {
    if folders[i] in folders[..k] {
      var j :| 0 <= j < k && folders[j] == folders[i];
      FoldersDiffer(folders, i, j);
    }
    if i < k {
      assert folders[..k][i] == folders[i];
    }
  }

  lemma RegisteredOfPrefix(folders: seq<Name>, concluded: seq<Name>, k: nat)
    requires Folders(folders) && RecordsFirst(folders, concluded, k)
    ensures Within(folders, Names(concluded)) == folders[..k]
    ensures Outside(concluded, Names(folders)) == []
  {
    var front, back := folders[..k], folders[k..];
    forall n | n in back ensures n !in front {
      var i :| 0 <= i < |back| && back[i] == n;
      InFirst(folders, k, k + i);
    }
    assert folders == front + back;
    SplitBySet(front, back, Names(concluded));
    OutsideNone(concluded, Names(folders));
  }

  lemma NoHolesInPrefix(folders: seq<Name>, concluded: seq<Name>, k: nat)
    requires Folders(folders) && RecordsFirst(folders, concluded, k) && k > 0
    ensures Outside(Below(folders, folders[k - 1]), Names(concluded)) == []
  {
    var below := Below(folders, folders[k - 1]);
    forall n | n in below ensures n in concluded {
      var i :| 0 <= i < |folders| && folders[i] == n;
      FoldersDiffer(folders, i, k - 1);
      InFirst(folders, k, i);
    }
    OutsideNone(below, Names(concluded));
  }

  lemma StateOfPrefix(folders: seq<Name>, concluded: seq<Name>, k: nat)
    requires Folders(folders) && RecordsFirst(folders, concluded, k)
    ensures StateOf(folders, concluded) == RegistryState(folders[..k], [], [])
  {
    RegisteredOfPrefix(folders, concluded, k);
    if k > 0 {
      NoHolesInPrefix(folders, concluded, k);
      assert folders[..k][k - 1] == folders[k - 1] != "";
    }
  }

  lemma {:induction false} LastKeptIsGreatest(names: seq<Name>, s: set<Name>)
    requires Folders(names) && Within(names, s) != []
    ensures var kept := Within(names, s);
      forall n | n in kept :: n == kept[|kept| - 1] || Less(n, kept[|kept| - 1])
  {
    var rest := names[1..];
    assert Folders(rest);
    var kept, keptRest := Within(names, s), Within(rest, s);
    if keptRest != [] {
      LastKeptIsGreatest(rest, s);
      assert kept[|kept| - 1] == keptRest[|keptRest| - 1];
      assert keptRest[|keptRest| - 1] in rest;
      var j :| 0 <= j < |rest| && rest[j] == keptRest[|keptRest| - 1];
      assert Less(names[0], names[j + 1]);
    }
  }

  /** A registry without holes and strangers whose newest entry is folder i records exactly the first i + 1. */
  lemma NoHolesBelow(folders: seq<Name>, concluded: seq<Name>, i: nat)
    requires Folders(folders) && i < |folders|
    requires var state := StateOf(folders, concluded);
      state.registered != [] && state.registered[|state.registered| - 1] == folders[i] && state.holes == [] && state.unknown == []
    ensures RecordsFirst(folders, concluded, i + 1)
  {
    var state := StateOf(folders, concluded);
    LastKeptIsGreatest(folders, Names(concluded));
    assert folders[i] in state.registered;
    forall n
      ensures n in concluded <==> n in folders[..i + 1]
    {
      if n in concluded {
        assert n !in state.unknown;
        assert n in state.registered;
        var j :| 0 <= j < |folders| && folders[j] == n;
        FoldersDiffer(folders, j, i);
        InFirst(folders, i + 1, j);
      }
      if n in folders[..i + 1] {
        var j :| 0 <= j <= i && folders[j] == n;
        FoldersDiffer(folders, j, i);
        assert n !in state.holes;
      }
    }
  }

  /** No holes and no strangers means exactly: the registry is a prefix of the folders. */
  lemma PrefixOrNotice(folders: seq<Name>, concluded: seq<Name>)
    requires Folders(folders)
    ensures (StateOf(folders, concluded).holes == [] && StateOf(folders, concluded).unknown == [])
            <==> exists k: nat :: RecordsFirst(folders, concluded, k)
  {
    var state := StateOf(folders, concluded);
    if state.holes == [] && state.unknown == [] {
      if state.registered == [] {
        assert forall n :: n in concluded ==> n in state.unknown || n in state.registered;
        assert RecordsFirst(folders, concluded, 0);
      } else {
        var newest := state.registered[|state.registered| - 1];
        assert newest in state.registered;
        var i :| 0 <= i < |folders| && folders[i] == newest;
        NoHolesBelow(folders, concluded, i);
      }
    } else if k: nat :| RecordsFirst(folders, concluded, k) {
      StateOfPrefix(folders, concluded, k);
    }
  }

  // --- The decision ------------------------------------------------------------------

  datatype Stop =
    | Unfinished(failed: seq<Name>)
    | Strangers(names: seq<Name>)
    | HolesIn(names: seq<Name>)
    | StuckBefore(first: Name)
    | NotPresent(first: Name)

  datatype Decision = Decision(
    toMark: seq<Name>, alreadyMarked: seq<Name>, pending: seq<Name>, stop: Option<Stop>, established: bool)

  function Stopped(pending: seq<Name>, stop: Stop): Decision {
    Decision([], [], pending, Some(stop), false)
  }

  predicate Markable(limits: Limits, proven: set<Name>, name: Name) {
    !Less(limits.last, name) && name in proven
  }

  /** The proven stretch at the beginning. */
  function ProvenPrefix(limits: Limits, folders: seq<Name>, proven: set<Name>): (prefix: seq<Name>)
    ensures prefix <= folders
    ensures forall n | n in prefix :: Markable(limits, proven, n)
    ensures |prefix| < |folders| ==> !Markable(limits, proven, folders[|prefix|])
  {
    if folders == [] || !Markable(limits, proven, folders[0]) then []
    else [folders[0]] + ProvenPrefix(limits, folders[1..], proven)
  }

  function DecisionFrom(limits: Limits, folders: seq<Name>, proven: set<Name>, state: RegistryState): Decision {
    if state.unknown != [] then Stopped([], Strangers(state.unknown))
    else if state.holes != [] then Stopped(state.holes, HolesIn(state.holes))
    else
      var prefix := ProvenPrefix(limits, folders, proven);
      var k := |state.registered|;
      if 0 < k <= |folders| && k >= |prefix| then
        var pending := folders[k..];
        var unforeseen := Below(pending, limits.mayLackFrom);
        if unforeseen != [] then Stopped(pending, StuckBefore(unforeseen[0]))
        else Decision([], [], pending, None, true)
      else
        var pending := folders[|prefix|..];
        var unforeseen := Below(pending, limits.mayLackFrom);
        if unforeseen != [] then Stopped(pending, NotPresent(unforeseen[0]))
        else Decision(
          Outside(prefix, Names(state.registered)), Within(prefix, Names(state.registered)), pending, None, false)
  }

  function DecisionOf(limits: Limits, folders: seq<Name>, proven: set<Name>, registry: Option<Registry>): Decision {
    if Failures(registry) != [] then Stopped([], Unfinished(Failures(registry)))
    else DecisionFrom(limits, folders, proven, StateOf(folders, Concluded(registry)))
  }

  lemma ProvenPrefixStep(limits: Limits, folders: seq<Name>, proven: set<Name>, i: nat)
    requires i < |folders|
    ensures ProvenPrefix(limits, folders[i..], proven) ==
      if Markable(limits, proven, folders[i]) then [folders[i]] + ProvenPrefix(limits, folders[i + 1..], proven) else []
  {
    assert folders[i..][1..] == folders[i + 1..];
  }

  /** The loop over the folders, up to the first that cannot be marked. */
  method ProvenStretch(limits: Limits, folders: seq<Name>, proven: set<Name>) returns (prefix: seq<Name>)
    ensures prefix == ProvenPrefix(limits, folders, proven)
  {
    hide ProvenPrefix, Markable;
    prefix := [];
    var i := 0;
    while i < |folders|
      invariant 0 <= i <= |folders|
      invariant ProvenPrefix(limits, folders, proven) == prefix + ProvenPrefix(limits, folders[i..], proven)
    {
      ProvenPrefixStep(limits, folders, proven, i);
      if !Markable(limits, proven, folders[i]) {
        return;
      }
      prefix := prefix + [folders[i]];
      i := i + 1;
    }
  }

  lemma NoMoreRegisteredThanFolders(folders: seq<Name>, concluded: seq<Name>)
    requires Folders(folders)
    requires StateOf(folders, concluded).holes == [] && StateOf(folders, concluded).unknown == []
    ensures |StateOf(folders, concluded).registered| <= |folders|
  {
    PrefixOrNotice(folders, concluded);
    var k: nat :| RecordsFirst(folders, concluded, k);
    StateOfPrefix(folders, concluded, k);
  }

  /** `decidi`. */
  method Decide(limits: Limits, folders: seq<Name>, proven: set<Name>, registry: Option<Registry>) returns (d: Decision)
    requires Folders(folders)
    ensures d == DecisionOf(limits, folders, proven, registry)
  {
    hide StateOf, Below, Outside, Within, ProvenPrefix, Folders;
    if |Failures(registry)| > 0 {
      return Stopped([], Unfinished(Failures(registry)));
    }
    var state := StateOf(folders, Concluded(registry));
    if |state.unknown| > 0 {
      return Stopped([], Strangers(state.unknown));
    }
    if |state.holes| > 0 {
      return Stopped(state.holes, HolesIn(state.holes));
    }
    NoMoreRegisteredThanFolders(folders, Concluded(registry));
    var prefix := ProvenStretch(limits, folders, proven);
    var k := |state.registered|;
    if k > 0 && k >= |prefix| {
      var pending := folders[k..];
      var unforeseen := Below(pending, limits.mayLackFrom);
      if |unforeseen| > 0 {
        return Stopped(pending, StuckBefore(unforeseen[0]));
      }
      return Decision([], [], pending, None, true);
    }
    var pending := folders[|prefix|..];
    var unforeseen := Below(pending, limits.mayLackFrom);
    if |unforeseen| > 0 {
      return Stopped(pending, NotPresent(unforeseen[0]));
    }
    var registered := Names(state.registered);
    return Decision(Outside(prefix, registered), Within(prefix, registered), pending, None, false);
  }

  function Max(a: nat, b: nat): nat {
    if a >= b then a else b
  }

  /** The decision once the registry is known to record the first k folders. */
  function DecisionAfter(limits: Limits, folders: seq<Name>, proven: set<Name>, k: nat): Decision
    requires k <= |folders|
  {
    var m := |ProvenPrefix(limits, folders, proven)|;
    var pending := folders[Max(k, m)..];
    var unforeseen := Below(pending, limits.mayLackFrom);
    if unforeseen != [] then
      Stopped(pending, if 0 < k && m <= k then StuckBefore(unforeseen[0]) else NotPresent(unforeseen[0]))
    else if 0 < k && m <= k then Decision([], [], pending, None, true)
    else Decision(folders[k..m], folders[..k], pending, None, false)
  }

  lemma MarkedAndToMark(folders: seq<Name>, k: nat, m: nat)
    requires Folders(folders) && k <= m <= |folders|
    ensures Outside(folders[..m], Names(folders[..k])) == folders[k..m]
    ensures Within(folders[..m], Names(folders[..k])) == folders[..k]
  {
    var front, back := folders[..k], folders[k..m];
    forall n | n in back ensures n !in front {
      var i :| 0 <= i < |back| && back[i] == n;
      InFirst(folders, k, k + i);
    }
    assert folders[..m] == front + back;
    SplitBySet(front, back, Names(front));
  }

  lemma DecisionFromPrefix(limits: Limits, folders: seq<Name>, proven: set<Name>, k: nat)
    requires Folders(folders) && k <= |folders|
    ensures DecisionFrom(limits, folders, proven, RegistryState(folders[..k], [], []))
         == DecisionAfter(limits, folders, proven, k)
  {
    var prefix := ProvenPrefix(limits, folders, proven);
    var m := |prefix|;
    assert prefix == folders[..m];
    if k <= m {
      MarkedAndToMark(folders, k, m);
    }
  }

  /** With the first k folders recorded, the decision cuts the folders in three stretches. */
  lemma DecisionCuts(limits: Limits, folders: seq<Name>, proven: set<Name>, registry: Option<Registry>, k: nat)
    requires Folders(folders) && RecordsFirst(folders, Concluded(registry), k) && Failures(registry) == []
    ensures DecisionOf(limits, folders, proven, registry) == DecisionAfter(limits, folders, proven, k)
  {
    StateOfPrefix(folders, Concluded(registry), k);
    DecisionFromPrefix(limits, folders, proven, k);
  }

  /** Nothing that the app needs is left pending. */
  ghost predicate OnlyForeseen(limits: Limits, folders: seq<Name>, proven: set<Name>, k: nat)
    requires k <= |folders|
  {
    forall n | n in folders[Max(k, |ProvenPrefix(limits, folders, proven)|)..] :: !Less(n, limits.mayLackFrom)
  }

  /** What the baseline may record: not after its last migration, and proven with all before it. */
  ghost predicate ProvenUpTo(limits: Limits, folders: seq<Name>, proven: set<Name>, f: Name) {
    f in folders && !Less(limits.last, f) && f in proven && forall g | g in folders && Less(g, f) :: g in proven
  }

  /** The provable stretch holds just what the baseline may record. */
  lemma PrefixIsProven(limits: Limits, folders: seq<Name>, proven: set<Name>)
    requires Folders(folders)
    ensures forall f | f in folders :: f in ProvenPrefix(limits, folders, proven) <==> ProvenUpTo(limits, folders, proven, f)
  {
    var prefix := ProvenPrefix(limits, folders, proven);
    var m := |prefix|;
    forall f | f in folders ensures f in prefix <==> ProvenUpTo(limits, folders, proven, f) {
      var i :| 0 <= i < |folders| && folders[i] == f;
      InFirst(folders, m, i);
      forall j | 0 <= j < m ensures Markable(limits, proven, folders[j]) {
        assert prefix[j] in prefix;
      }
      if i < m {
        forall g | g in folders && Less(g, f) ensures g in proven {
          var j :| 0 <= j < |folders| && folders[j] == g;
          FoldersDiffer(folders, j, i);
        }
      } else {
        FoldersDiffer(folders, m, i);
        NotAfterEither(limits.last, folders[m], f);
      }
    }
  }

  lemma NotAfterEither(last: Name, g: Name, f: Name)
    requires g == f || Less(g, f)
    ensures !Less(last, f) ==> !Less(last, g)
  {
    if Less(last, g) && Less(g, f) {
      LessIsTransitive(last, g, f);
    }
  }

  /**
   What a decision that goes on comes to, whatever the names of its parts: what may be
   recorded and is not yet is marked, in order; the rest that is not recorded is pending;
   and it goes on exactly when nothing failed, the registry is a prefix, and nothing that
   is left pending is needed.
   */
  lemma DecisionIsExact(limits: Limits, folders: seq<Name>, proven: set<Name>, registry: Option<Registry>)
    requires Folders(folders)
    ensures var d, rows := DecisionOf(limits, folders, proven, registry), Concluded(registry);
      && (d.stop.None? <==>
           && Failures(registry) == []
           && (exists k: nat :: RecordsFirst(folders, rows, k))
           && forall f | f in folders && f !in rows && !ProvenUpTo(limits, folders, proven, f) :: !Less(f, limits.mayLackFrom))
      && (d.stop.None? ==>
           && (forall f :: f in d.toMark <==> f !in rows && ProvenUpTo(limits, folders, proven, f))
           && (forall f :: f in d.pending <==> f in folders && f !in rows && !ProvenUpTo(limits, folders, proven, f))
           && Folders(d.toMark) && Folders(d.pending)
           && (d.established <==> rows != [] && d.toMark == []))
  {
    var rows := Concluded(registry);
    StopsExactlyWhen(limits, folders, proven, registry);
    if Failures(registry) == [] {
      if k: nat :| RecordsFirst(folders, rows, k) {
        DecisionCuts(limits, folders, proven, registry, k);
        hide DecisionOf, Folders, ProvenPrefix, ProvenUpTo, Less;
        DecisionAfterCuts(limits, folders, proven, k);
        ForeseenByContent(limits, folders, proven, rows, k);
        StretchesByContent(limits, folders, proven, rows, k);
        RowsAreThere(folders, rows, k);
        forall h: nat | RecordsFirst(folders, rows, h) ensures h == k {
          OnePrefix(folders, rows, h, k);
        }
        hide DecisionAfter, RecordsFirst, OnlyForeseen;
      }
    }
  }

  /** A stop names what is wrong: all of it, or the first that is needed and missing. */
  lemma StopsSayWhy(limits: Limits, folders: seq<Name>, proven: set<Name>, registry: Option<Registry>)
    requires Folders(folders)
    ensures var d, rows := DecisionOf(limits, folders, proven, registry), Concluded(registry);
      match d.stop
      case Some(Unfinished(names)) => names == Failures(registry) && names != []
      case Some(Strangers(names)) => names != [] && forall n :: n in names <==> n in rows && n !in folders
      case Some(HolesIn(names)) =>
        names != [] && forall n :: n in names <==> n in folders && n !in rows && exists r :: r in rows && r in folders && Less(n, r)
      case Some(StuckBefore(first)) => d.pending != [] && first in d.pending && Less(first, limits.mayLackFrom)
      case Some(NotPresent(first)) => d.pending != [] && first in d.pending && Less(first, limits.mayLackFrom)
      case None => true
  {
    StateByContent(folders, Concluded(registry));
    hide StateOf, Less, Folders, ProvenPrefix, Within, Outside, Names;
    assert Failures(registry) == [] ==>
      DecisionOf(limits, folders, proven, registry) == DecisionFrom(limits, folders, proven, StateOf(folders, Concluded(registry)));
  }

  lemma StateByContent(folders: seq<Name>, rows: seq<Name>)
    requires Folders(folders)
    ensures var state := StateOf(folders, rows);
      && (forall n :: n in state.unknown <==> n in rows && n !in folders)
      && (forall n :: n in state.holes <==> n in folders && n !in rows && exists r :: r in rows && r in folders && Less(n, r))
  {
    var registered := Within(folders, Names(rows));
    hide Less;
    if registered != [] {
      var last := registered[|registered| - 1];
      assert last in registered;
      LastIsGreatest(folders, rows);
      NamesAreNot(folders, last);
    } else {
      assert forall r | r in rows && r in folders :: r in registered;
    }
  }

  lemma NamesAreNot(folders: seq<Name>, n: Name)
    requires Folders(folders) && n in folders
    ensures n != ""
  {
  }

  lemma LastIsGreatest(folders: seq<Name>, rows: seq<Name>)
    requires Folders(folders) && Within(folders, Names(rows)) != []
    ensures var registered := Within(folders, Names(rows));
      var last := registered[|registered| - 1];
      forall n :: (exists r :: r in rows && r in folders && Less(n, r)) ==> Less(n, last)
  {
    var registered := Within(folders, Names(rows));
    var last := registered[|registered| - 1];
    LastKeptIsGreatest(folders, Names(rows));
    forall n, r | r in rows && r in folders && Less(n, r) ensures Less(n, last) {
      assert r in registered;
      if r != last && Less(r, last) {
        LessIsTransitive(n, r, last);
      }
    }
  }

  lemma DecisionAfterCuts(limits: Limits, folders: seq<Name>, proven: set<Name>, k: nat)
    requires k <= |folders|
    ensures var d, m := DecisionAfter(limits, folders, proven, k), |ProvenPrefix(limits, folders, proven)|;
      d.stop.None? ==>
        && d.toMark == folders[k..Max(k, m)] && d.pending == folders[Max(k, m)..]
        && (d.established <==> 0 < k && d.toMark == [])
  {
    hide Below;
  }

  lemma ForeseenByContent(limits: Limits, folders: seq<Name>, proven: set<Name>, rows: seq<Name>, k: nat)
    requires Folders(folders) && RecordsFirst(folders, rows, k)
    ensures OnlyForeseen(limits, folders, proven, k) <==>
      forall f | f in folders && f !in rows && !ProvenUpTo(limits, folders, proven, f) :: !Less(f, limits.mayLackFrom)
  {
    StretchesByContent(limits, folders, proven, rows, k);
    hide Folders, ProvenPrefix, ProvenUpTo, Less, RecordsFirst;
  }

  lemma StretchesByContent(limits: Limits, folders: seq<Name>, proven: set<Name>, rows: seq<Name>, k: nat)
    requires Folders(folders) && RecordsFirst(folders, rows, k)
    ensures var m := |ProvenPrefix(limits, folders, proven)|;
      && m <= |folders|
      && (forall f :: f in folders[k..Max(k, m)] <==> f !in rows && ProvenUpTo(limits, folders, proven, f))
      && (forall f :: f in folders[Max(k, m)..] <==> f in folders && f !in rows && !ProvenUpTo(limits, folders, proven, f))
      && Folders(folders[k..Max(k, m)]) && Folders(folders[Max(k, m)..])
  {
    var m := |ProvenPrefix(limits, folders, proven)|;
    var h := Max(k, m);
    PrefixIsProven(limits, folders, proven);
    SliceIsFolders(folders, k, h);
    SliceIsFolders(folders, h, |folders|);
    assert folders[h..|folders|] == folders[h..];
    assert ProvenPrefix(limits, folders, proven) == folders[..m];
    assert forall f | ProvenUpTo(limits, folders, proven, f) :: f in folders;
    hide Folders, ProvenPrefix, ProvenUpTo, RecordsFirst, Less;
    assert forall f :: f in rows <==> f in folders[..k] by { SameRows(folders, rows, k); }
    forall f ensures f in folders[k..h] <==> f !in rows && ProvenUpTo(limits, folders, proven, f)
             ensures f in folders[h..] <==> f in folders && f !in rows && !ProvenUpTo(limits, folders, proven, f) {
      WhereItFalls(folders, k, m, f);
    }
  }

  lemma SameRows(folders: seq<Name>, rows: seq<Name>, k: nat)
    requires RecordsFirst(folders, rows, k)
    ensures forall f :: f in rows <==> f in folders[..k]
  {
  }

  lemma WhereItFalls(folders: seq<Name>, k: nat, m: nat, f: Name)
    requires Folders(folders) && k <= |folders| && m <= |folders|
    ensures var h := Max(k, m);
      && (f in folders[k..h] <==> f in folders && f !in folders[..k] && f in folders[..m])
      && (f in folders[h..] <==> f in folders && f !in folders[..k] && f !in folders[..m])
  {
    var h := Max(k, m);
    assert folders[h..|folders|] == folders[h..];
    hide Folders;
    if f in folders {
      var i :| 0 <= i < |folders| && folders[i] == f;
      InFirst(folders, k, i);
      InFirst(folders, m, i);
      InStretch(folders, k, h, i);
      InStretch(folders, h, |folders|, i);
    } else {
      assert folders == folders[..k] + folders[k..h] + folders[h..];
    }
  }

  lemma SliceIsFolders(folders: seq<Name>, k: nat, h: nat)
    requires Folders(folders) && k <= h <= |folders|
    ensures Folders(folders[k..h])
  {
    hide Less;
  }

  lemma InStretch(folders: seq<Name>, k: nat, h: nat, i: nat)
    requires Folders(folders) && k <= h <= |folders| && i < |folders|
    ensures folders[i] in folders[k..h] <==> k <= i < h
  {
    if folders[i] in folders[k..h] {
      var j :| 0 <= j < h - k && folders[k..h][j] == folders[i];
      FoldersDiffer(folders, i, k + j);
    }
    if k <= i < h {
      assert folders[k..h][i - k] == folders[i];
    }
  }

  /** The decision stops, and then nothing is recorded or run, exactly when something is off. */
  lemma StopsExactlyWhen(limits: Limits, folders: seq<Name>, proven: set<Name>, registry: Option<Registry>)
    requires Folders(folders)
    ensures DecisionOf(limits, folders, proven, registry).stop.None? <==>
      Failures(registry) == []
      && exists k: nat :: RecordsFirst(folders, Concluded(registry), k) && OnlyForeseen(limits, folders, proven, k)
    ensures var d := DecisionOf(limits, folders, proven, registry); d.stop.Some? ==> d.toMark == [] && !d.established
  {
    PrefixOrNotice(folders, Concluded(registry));
    if Failures(registry) == [] {
      if k: nat :| RecordsFirst(folders, Concluded(registry), k) {
        DecisionCuts(limits, folders, proven, registry, k);
        forall h: nat | RecordsFirst(folders, Concluded(registry), h) ensures h == k {
          OnePrefix(folders, Concluded(registry), h, k);
        }
        var pending := folders[Max(k, |ProvenPrefix(limits, folders, proven)|)..];
        var unforeseen := Below(pending, limits.mayLackFrom);
        if unforeseen != [] {
          assert unforeseen[0] in unforeseen;
        } else {
          assert forall n :: n !in unforeseen;
        }
      }
    }
  }

  lemma OnePrefix(folders: seq<Name>, concluded: seq<Name>, h: nat, k: nat)
    requires Folders(folders) && RecordsFirst(folders, concluded, h) && RecordsFirst(folders, concluded, k)
    ensures h == k
  {
    if h < k { InFirst(folders, h, h); InFirst(folders, k, h); }
    if k < h { InFirst(folders, h, k); InFirst(folders, k, k); }
  }

  // --- Interruptions -------------------------------------------------------------------

  function Read(rows: seq<Name>): Option<Registry> {
    Some(Registry(rows, []))
  }

  /** The decision proceeds with the first k folders recorded and m of them proven. */
  ghost predicate Proceeds(limits: Limits, folders: seq<Name>, proven: set<Name>, rows: seq<Name>, k: nat) {
    RecordsFirst(folders, rows, k) && OnlyForeseen(limits, folders, proven, k)
  }

  lemma {:induction false} Proceeding(limits: Limits, folders: seq<Name>, proven: set<Name>, rows: seq<Name>, k: nat)
    requires Folders(folders) && Proceeds(limits, folders, proven, rows, k)
    ensures var d := DecisionOf(limits, folders, proven, Read(rows));
      var m := |ProvenPrefix(limits, folders, proven)|;
      && d.stop.None?
      && d.toMark == folders[k..Max(k, m)]
      && d.pending == folders[Max(k, m)..]
      && (d.established <==> 0 < k && m <= k)
  {
    DecisionCuts(limits, folders, proven, Read(rows), k);
    var m := |ProvenPrefix(limits, folders, proven)|;
    var unforeseen := Below(folders[Max(k, m)..], limits.mayLackFrom);
    assert forall n :: n !in unforeseen;
    Empty(unforeseen);
  }

  lemma Empty(names: seq<Name>)
    ensures names == [] <==> forall n :: n !in names
  {
    if names != [] {
      assert names[0] in names;
    }
  }

  lemma ProceedsSomewhere(limits: Limits, folders: seq<Name>, proven: set<Name>, rows: seq<Name>) returns (k: nat)
    requires Folders(folders) && DecisionOf(limits, folders, proven, Read(rows)).stop.None?
    ensures Proceeds(limits, folders, proven, rows, k) && k <= |folders|
  {
    StopsExactlyWhen(limits, folders, proven, Read(rows));
    k :| RecordsFirst(folders, rows, k) && OnlyForeseen(limits, folders, proven, k);
  }

  lemma ProceedsFurther(limits: Limits, folders: seq<Name>, proven: set<Name>, rows: seq<Name>, k: nat, i: nat)
    requires Folders(folders) && Proceeds(limits, folders, proven, rows, k)
    requires k + i <= Max(k, |ProvenPrefix(limits, folders, proven)|)
    ensures Proceeds(limits, folders, proven, rows + folders[k..k + i], k + i)
  {
  }

  lemma RowsAreThere(folders: seq<Name>, rows: seq<Name>, k: nat)
    requires RecordsFirst(folders, rows, k)
    ensures rows == [] <==> k == 0
  {
    if k > 0 { assert folders[0] in folders[..k]; }
    if rows != [] { assert rows[0] in rows; }
  }

  /**
   Interrupted after any number of rows, the decision on the same proofs resumes with
   exactly the rows that are left, and finds the baseline established once none is.
   */
  lemma ResumesWhereItStopped(limits: Limits, folders: seq<Name>, proven: set<Name>, rows: seq<Name>, i: nat)
    requires Folders(folders)
    requires var d := DecisionOf(limits, folders, proven, Read(rows)); d.stop.None? && i <= |d.toMark|
    ensures var d := DecisionOf(limits, folders, proven, Read(rows));
      var again := DecisionOf(limits, folders, proven, Read(rows + d.toMark[..i]));
      && again.stop.None?
      && again.toMark == d.toMark[i..]
      && again.pending == d.pending
      && (again.established <==> i == |d.toMark| && rows + d.toMark[..i] != [])
  {
    hide DecisionOf, ProvenPrefix, OnlyForeseen, Folders, RecordsFirst, Less;
    var k := ProceedsSomewhere(limits, folders, proven, rows);
    Proceeding(limits, folders, proven, rows, k);
    var m := |ProvenPrefix(limits, folders, proven)|;
    var toMark := folders[k..Max(k, m)];
    assert toMark[..i] == folders[k..k + i] && toMark[i..] == folders[k + i..Max(k, m)];
    ProceedsFurther(limits, folders, proven, rows, k, i);
    Proceeding(limits, folders, proven, rows + folders[k..k + i], k + i);
    RowsAreThere(folders, rows + folders[k..k + i], k + i);
  }

  function CutOff(toMark: seq<Name>, rows: nat): seq<Name> {
    if rows <= |toMark| then toMark[..rows] else toMark
  }

  /** The registry after a series of interrupted markings, each deciding anew. */
  function AfterCrashes(limits: Limits, folders: seq<Name>, proven: set<Name>, rows: seq<Name>, crashes: seq<nat>): seq<Name>
    decreases |crashes|
  {
    if crashes == [] then rows
    else
      var toMark := DecisionOf(limits, folders, proven, Read(rows)).toMark;
      AfterCrashes(limits, folders, proven, rows + CutOff(toMark, crashes[0]), crashes[1..])
  }

  lemma CrashProceeds(limits: Limits, folders: seq<Name>, proven: set<Name>, rows: seq<Name>, k: nat, crash: nat) returns (j: nat)
    requires Folders(folders) && Proceeds(limits, folders, proven, rows, k)
    ensures k <= j <= Max(k, |ProvenPrefix(limits, folders, proven)|)
    ensures CutOff(DecisionOf(limits, folders, proven, Read(rows)).toMark, crash) == folders[k..j]
    ensures Proceeds(limits, folders, proven, rows + folders[k..j], j)
  {
    hide DecisionOf;
    Proceeding(limits, folders, proven, rows, k);
    var h := Max(k, |ProvenPrefix(limits, folders, proven)|);
    var i := if crash <= h - k then crash else h - k;
    j := k + i;
    assert folders[k..h][..i] == folders[k..j];
    ProceedsFurther(limits, folders, proven, rows, k, i);
  }

  lemma {:induction false} CrashesProceed(
    limits: Limits, folders: seq<Name>, proven: set<Name>, rows: seq<Name>, k: nat, crashes: seq<nat>) returns (j: nat)
    requires Folders(folders) && Proceeds(limits, folders, proven, rows, k)
    ensures k <= j <= Max(k, |ProvenPrefix(limits, folders, proven)|)
    ensures AfterCrashes(limits, folders, proven, rows, crashes) == rows + folders[k..j]
    ensures Proceeds(limits, folders, proven, rows + folders[k..j], j)
    decreases |crashes|
  {
    hide DecisionOf, ProvenPrefix, CutOff, OnlyForeseen;
    if crashes == [] {
      assert rows + folders[k..k] == rows;
      return k;
    }
    var i := CrashProceeds(limits, folders, proven, rows, k, crashes[0]);
    j := CrashesProceed(limits, folders, proven, rows + folders[k..i], i, crashes[1..]);
    assert rows + folders[k..i] + folders[i..j] == rows + folders[k..j];
  }

  /** Whatever the interruptions, one uninterrupted marking ends in the same registry. */
  lemma CrashesConverge(limits: Limits, folders: seq<Name>, proven: set<Name>, rows: seq<Name>, crashes: seq<nat>)
    requires Folders(folders) && DecisionOf(limits, folders, proven, Read(rows)).stop.None?
    ensures var left := AfterCrashes(limits, folders, proven, rows, crashes);
      && DecisionOf(limits, folders, proven, Read(left)).stop.None?
      && left + DecisionOf(limits, folders, proven, Read(left)).toMark == rows + DecisionOf(limits, folders, proven, Read(rows)).toMark
  {
    hide DecisionOf, ProvenPrefix, OnlyForeseen, Folders, AfterCrashes;
    var k := ProceedsSomewhere(limits, folders, proven, rows);
    var j := CrashesProceed(limits, folders, proven, rows, k, crashes);
    Proceeding(limits, folders, proven, rows, k);
    Proceeding(limits, folders, proven, rows + folders[k..j], j);
    var h := Max(k, |ProvenPrefix(limits, folders, proven)|);
    assert rows + folders[k..j] + folders[j..h] == rows + folders[k..h];
  }

  /**
   The shortcut of the script, which looks for no proof when every folder of the baseline
   is recorded without holes: whatever the proofs would say, the decision is the same.
   */
  lemma ShortcutAgrees(limits: Limits, folders: seq<Name>, proven: set<Name>, rows: seq<Name>)
    requires Folders(folders) && (limits.mayLackFrom == limits.last || Less(limits.mayLackFrom, limits.last))
    requires StateOf(folders, rows).holes == [] && StateOf(folders, rows).unknown == []
    requires forall n | n in folders && !Less(limits.last, n) :: n in rows
    requires rows != []
    ensures var d := DecisionOf(limits, folders, proven, Read(rows));
      d.established && d.stop.None? && d.toMark == []
  {
    PrefixOrNotice(folders, rows);
    var k: nat :| RecordsFirst(folders, rows, k);
    DecisionCuts(limits, folders, proven, Read(rows), k);
    assert rows[0] in rows;
    var prefix := ProvenPrefix(limits, folders, proven);
    if k < |prefix| {
      assert prefix[k] in prefix && prefix[k] == folders[k];
      InFirst(folders, k, k);
    }
    var pending := folders[k..];
    var unforeseen := Below(pending, limits.mayLackFrom);
    if unforeseen != [] {
      var n := unforeseen[0];
      assert n in unforeseen;
      var i :| k <= i < |folders| && folders[i] == n;
      InFirst(folders, k, i);
      LessIsTransitive(limits.last, n, limits.mayLackFrom);
      LessIsStrict(limits.last, limits.mayLackFrom);
    }
  }

  /** Two names that begin alike are in the order of the first character that differs. */
  lemma FirstDifferenceDecides(a: Name, b: Name, k: nat)
    requires k < |a| && k < |b| && a[k] < b[k] && forall i | 0 <= i < k :: a[i] == b[i]
    ensures Less(a, b)
  {
    assert a[..k] == b[..k];
    LessMeans(a, b);
  }

  /** In the baseline as it ships the first migration that may be missing is not past the last one. */
  lemma LimitsAreInOrder()
    ensures Less(LIMITS.mayLackFrom, LIMITS.last)
  {
    hide Less;
    assert MAY_LACK_FROM[..7] == "2026092" && LAST[7] == '6' && forall i | 0 <= i < 7 :: LAST[i] == "2026092"[i];
    FirstDifferenceDecides(MAY_LACK_FROM, LAST, 7);
  }

  /** So the shortcut agrees with the decision of the script as it ships. */
  lemma ShippedShortcutAgrees(folders: seq<Name>, proven: set<Name>, rows: seq<Name>)
    requires Folders(folders) && rows != []
    requires StateOf(folders, rows).holes == [] && StateOf(folders, rows).unknown == []
    requires forall n | n in folders && !Less("20260926000000_plans_basic_growth_scale_core", n) :: n in rows
    ensures LIMITS == Limits("20260926000000_plans_basic_growth_scale_core", "20260923000000_pricing_alignment")
    ensures var d := DecisionOf(LIMITS, folders, proven, Read(rows));
      d.established && d.stop.None? && d.toMark == []
  {
    hide DecisionOf, Less, StateOf, Folders, Read;
    LimitsAreInOrder();
    ShortcutAgrees(LIMITS, folders, proven, rows);
  }

  lemma NothingLaterRecorded(folders: seq<Name>, rows: seq<Name>, i: nat)
    requires Folders(folders) && i < |folders| && RecordsFirst(folders, rows, i)
    ensures !exists n :: n in rows && Less(folders[i], n)
  {
    hide Less;
    forall n | n in rows ensures !Less(folders[i], n) {
      var j :| 0 <= j < i && folders[j] == n;
      FoldersDiffer(folders, i, j);
    }
  }

  // --- The database ----------------------------------------------------------------------

  class Database {
    // The rows of the registry, in the order they were written, and the unfinished ones.
    var registry: seq<Name>
    var unfinished: seq<Name>
    // The migrations whose effect is there, those that were run, and whether one was ever
    // run although a later one was already recorded.
    ghost var effects: set<Name>
    ghost var executed: seq<Name>
    ghost var ranOverLater: bool

    /** The marking loop, one row at a time, cut off after some number of them. */
    method Mark(toMark: seq<Name>, cutOff: nat)
      modifies this`registry
      ensures registry == old(registry) + CutOff(toMark, cutOff)
    {
      var i := 0;
      while i < |toMark| && i < cutOff
        invariant 0 <= i <= |toMark| && i <= cutOff
        invariant registry == old(registry) + toMark[..i]
      {
        registry := registry + [toMark[i]];
        i := i + 1;
      }
      assert toMark[..|toMark|] == toMark;
    }

    method MarkEvery(toMark: seq<Name>)
      modifies this`registry
      ensures registry == old(registry) + toMark
    {
      Mark(toMark, |toMark|);
    }

    /** One migration that has no row: it is run, and its row is written. */
    method RunAndRecord(name: Name)
      modifies this
      ensures registry == old(registry) + [name]
      ensures executed == old(executed) + [name] && effects == old(effects) + {name}
      ensures ranOverLater == (old(ranOverLater) || exists n :: n in old(registry) && Less(name, n))
    {
      executed := executed + [name];
      effects := effects + {name};
      ranOverLater := ranOverLater || exists n :: n in registry && Less(name, n);
      registry := registry + [name];
    }

    /** `migrate deploy`: every folder without a row is run and recorded, in order. */
    method Deploy(folders: seq<Name>, ghost k: nat)
      requires Folders(folders) && RecordsFirst(folders, registry, k)
      modifies this
      ensures RecordsFirst(folders, registry, |folders|)
      ensures executed == old(executed) + folders[k..]
      ensures effects == old(effects) + Names(folders[k..])
      ensures ranOverLater == old(ranOverLater)
    {
      hide Less;
      var i := 0;
      while i < |folders|
        invariant 0 <= i <= |folders|
        invariant RecordsFirst(folders, registry, Max(i, k))
        invariant executed == old(executed) + folders[k..Max(i, k)]
        invariant effects == old(effects) + Names(folders[k..Max(i, k)])
        invariant ranOverLater == old(ranOverLater)
      {
        InFirst(folders, Max(i, k), i);
        if folders[i] !in registry {
          NothingLaterRecorded(folders, registry, i);
          assert folders[i..i + 1] == [folders[i]];
          assert folders[k..i + 1] == folders[k..i] + [folders[i]];
          RunAndRecord(folders[i]);
        }
        i := i + 1;
      }
      assert folders[k..|folders|] == folders[k..];
    }

    /**
     The baseline from end to end, with sound proofs. If the decision stops, nothing is
     recorded and nothing is run. Otherwise every folder ends up recorded: it was so
     before, or it is proven present and was only marked, or it was run once and in order;
     nothing is marked after an unproven one, and nothing is run over a later one.
     */
    method MarkAndDeploy(limits: Limits, folders: seq<Name>, proven: set<Name>) returns (d: Decision)
      requires Folders(folders)
      requires proven <= effects && executed == [] && !ranOverLater
      modifies this
      ensures d == DecisionOf(limits, folders, proven, Some(Registry(old(registry), old(unfinished))))
      ensures d.stop.Some? ==> registry == old(registry) && executed == []
      ensures d.stop.None? ==>
        && RecordsFirst(folders, registry, |folders|)
        && executed == d.pending
        && (forall f | f in folders :: f in old(registry) || f in d.toMark || f in d.pending)
        && (forall f | f in d.toMark :: f in old(effects) && f !in old(registry) && f !in d.pending)
        && (forall f | f in d.pending :: f !in old(registry))
        // What the baseline may record, proven with all before it, is marked and never executed; no other is marked.
        && (forall f :: f in d.toMark <==> f !in old(registry) && ProvenUpTo(limits, folders, proven, f))
        && (forall f | f in executed :: !ProvenUpTo(limits, folders, proven, f))
        && (forall f | f in d.toMark :: !Less(limits.last, f))
        && (forall f, g | f in d.toMark && g in folders && Less(g, f) :: g in proven)
      ensures !ranOverLater
      ensures d.stop.None? && (forall f | f in old(registry) :: f in old(effects)) ==> forall f | f in folders :: f in effects
    {
      hide DecisionOf, ProvenPrefix, OnlyForeseen, Less, CutOff, ProvenUpTo;
      d := Decide(limits, folders, proven, Some(Registry(registry, unfinished)));
      StopsExactlyWhen(limits, folders, proven, Some(Registry(registry, unfinished)));
      DecisionIsExact(limits, folders, proven, Some(Registry(registry, unfinished)));
      if d.stop.Some? {
        return;
      }
      ghost var rows := registry;
      ghost var k := ProceedsSomewhere(limits, folders, proven, rows);
      ghost var h := Max(k, |ProvenPrefix(limits, folders, proven)|);
      Proceeding(limits, folders, proven, rows, k);
      MarkEvery(d.toMark);
      Deploy(folders, h);
      PendingUnrecorded(folders, rows, k, h);
      MarkedAreProven(limits, folders, proven, rows, k);
      NothingAfterTheLast(limits, folders, proven);
    }
  }

  lemma NothingAfterTheLast(limits: Limits, folders: seq<Name>, proven: set<Name>)
    ensures forall f | ProvenUpTo(limits, folders, proven, f) :: !Less(limits.last, f)
  {
  }

  lemma PendingUnrecorded(folders: seq<Name>, rows: seq<Name>, k: nat, h: nat)
    requires Folders(folders) && RecordsFirst(folders, rows, k) && k <= h <= |folders|
    ensures forall f | f in folders[h..] :: f !in rows && f !in folders[k..h]
  {
    forall f | f in folders[h..] ensures f !in rows && f !in folders[k..h] {
      var i :| h <= i < |folders| && folders[i] == f;
      InFirst(folders, k, i);
      InFirst(folders, h, i);
      assert folders[..h] == folders[..k] + folders[k..h];
    }
  }

  lemma MarkedAreProven(limits: Limits, folders: seq<Name>, proven: set<Name>, rows: seq<Name>, k: nat)
    requires Folders(folders) && RecordsFirst(folders, rows, k)
    ensures forall f | f in folders[k..Max(k, |ProvenPrefix(limits, folders, proven)|)] ::
      && f in proven && f !in rows
      && forall g | g in folders && Less(g, f) :: g in proven
  {
    var prefix := ProvenPrefix(limits, folders, proven);
    var h := Max(k, |prefix|);
    forall f | f in folders[k..h]
      ensures f in proven && f !in rows
      ensures forall g | g in folders && Less(g, f) :: g in proven
    {
      var i :| k <= i < h && folders[i] == f;
      InFirst(folders, k, i);
      assert prefix[i] in prefix;
      forall g | g in folders && Less(g, f) ensures g in proven {
        var j :| 0 <= j < |folders| && folders[j] == g;
        FoldersDiffer(folders, j, i);
        assert prefix[j] in prefix;
      }
    }
  }

}
