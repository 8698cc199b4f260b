/**
 The renewal of the rotating Supabase token, as a state machine.

 Calls of `getValidAccessToken` for one shop run on any number of instances. An
 instance runs one synchronous segment of one call at a time; between two
 segments (at every `await`) anything else may happen. Every segment is one step
 of the machine, and a run is any sequence of enabled steps, so a statement about
 all runs is a statement about every interleaving.
 */
module TokenRenewal {
  import opened Options

  // How long before its expiry a token already counts as expired.
  const SKEW_MS := 60_000
  // How long a row just touched counts as somebody else's turn.
  const TURN_TTL_MS := 10_000
  // How long the loser of a turn polls, and how often.
  const WAIT_MAX_MS := 3_000
  const WAIT_STEP_MS := 100

  type CallId = nat
  type Instance = nat
  type Token = nat

  datatype Row = Row(access: Token, refresh: Token, expiresAt: int, updatedAt: int)

  datatype Grant = Grant(access: Token, refresh: Token, expiresIn: nat)

  datatype Failure =
    | NotLinked
    | NotConfigured
    | StorageError
    | RenewalInProgress
    | ProviderError(status: Option<int>, confirmed: bool)

  datatype Outcome = Answer(access: Token) | Failed(error: Failure)

  predicate StillGood(expiresAt: int, at: int) {
    expiresAt - SKEW_MS > at
  }

  /** The row holds a token that can still be used. */
  predicate HoldsGood(row: Option<Row>, at: int) {
    row.Some? && StillGood(row.value.expiresAt, at)
  }

  /** A 404 becomes "relink" only after the re-read that found nothing. */
  function Confirm(e: Failure): Failure {
    if e.ProviderError? && e.status == Some(404) then ProviderError(Some(404), true) else e
  }

  predicate CredentialDead(e: Failure) {
    && e.ProviderError?
    && e.status.Some?
    && (e.status.value in {400, 401, 403} || (e.status.value == 404 && e.confirmed))
  }

  /** Which errors ask to link the account again: a 404 only once the re-read has confirmed it, and that it always is. */
  lemma DeadCredentialsAreThese(status: Option<int>, confirmed: bool)
    ensures var e := ProviderError(status, confirmed);
      && (CredentialDead(e) <==> AsksToRelink(status) && (status == Some(404) ==> confirmed))
      && (CredentialDead(Confirm(e)) <==> AsksToRelink(status))
      && Confirm(e).ProviderError? && Confirm(e).status == status
  {
  }

  // --- The two writes on the row -------------------------------------------

  predicate TurnIsFree(seenVersion: int, ora: int) {
    ora - seenVersion >= TURN_TTL_MS
  }

  predicate GuardHolds(row: Option<Row>, seenVersion: int) {
    row.Some? && row.value.updatedAt == seenVersion
  }

  /** The guarded update: it moves the version only on the row that was read. */
  function AfterTake(row: Option<Row>, seenVersion: int, ora: int): Option<Row> {
    if GuardHolds(row, seenVersion) then Some(row.value.(updatedAt := ora)) else row
  }

  /** The unconditional upsert of the renewed tokens. */
  function AfterSave(g: Grant, computedAt: int, stamp: int): Option<Row> {
    Some(Row(g.access, g.refresh, computedAt + g.expiresIn * 1000, stamp))
  }

  /** The row of one shop in the owner database, with the operations that touch it. */
  class OwnerRow {
    var row: Option<Row>

    constructor (initial: Option<Row>)
      ensures row == initial
    {
      row := initial;
    }

    method TryTakeTurn(seenVersion: int, ora: int) returns (won: bool)
      modifies this
      ensures won <==> ora >= seenVersion + 10_000 && old(row).Some? && old(row).value.updatedAt == seenVersion
      ensures won <==> TurnIsFree(seenVersion, ora) && GuardHolds(old(row), seenVersion)
      ensures won ==> row == AfterTake(old(row), seenVersion, ora) == Some(old(row).value.(updatedAt := ora))
      ensures !won ==> row == old(row)
    {
      if ora - seenVersion < TURN_TTL_MS {
        return false;
      }
      var count := 0;
      if row.Some? && row.value.updatedAt == seenVersion {
        row := Some(row.value.(updatedAt := ora));
        count := 1;
      }
      won := count == 1;
    }

    method SaveTokens(g: Grant, computedAt: int, stamp: int)
      modifies this
      ensures row == AfterSave(g, computedAt, stamp)
      // The token serves for as long as the provider said, less a minute.
      ensures forall at :: HoldsGood(row, at) <==> at < computedAt + 1000 * g.expiresIn - 60_000
      ensures row.Some? && row.value.access == g.access && row.value.refresh == g.refresh && row.value.updatedAt == stamp
    {
      var expiresAt := computedAt + g.expiresIn * 1000;
      row := Some(Row(g.access, g.refresh, expiresAt, stamp));
    }

    method ValidSavedToken(at: int) returns (token: Option<Token>)
      ensures token.Some? <==> HoldsGood(row, at)
      ensures token.Some? <==> row.Some? && row.value.expiresAt > at + 60_000
      ensures token.Some? ==> token.value == row.value.access
    {
      if row.None? || !StillGood(row.value.expiresAt, at) {
        return None;
      }
      return Some(row.value.access);
    }
  }

  /** What one poll of the waiting loop met: when it looked, and the row it saw. */
  datatype Sighting = Sighting(at: int, row: Option<Row>)

  predicate Finds(s: Sighting) {
    HoldsGood(s.row, s.at)
  }

  /**
   The waiting loop of a call that lost its turn, against any schedule: `world(k)`
   is what the k-th poll meets, and a poll never wakes earlier than the sleep it
   asked for.
   */
  method AwaitNewToken(start: int, world: nat -> Sighting) returns (token: Option<Token>, polls: nat)
    requires world(0).at >= start + WAIT_STEP_MS
    requires forall k: nat :: world(k + 1).at >= world(k).at + WAIT_STEP_MS
    ensures 1 <= polls <= 30
    // The answer is that of the first poll that finds a good token.
    ensures token.Some? ==> Finds(world(polls - 1)) && token.value == world(polls - 1).row.value.access
    ensures forall k: nat :: k < polls - 1 ==> !Finds(world(k)) && world(k).at < start + 3_000
    // Giving up means that every poll until the deadline had passed found nothing.
    ensures token.None? ==> !Finds(world(polls - 1)) && world(polls - 1).at >= start + 3_000
  {
    var deadline := start + WAIT_MAX_MS;
    var clock := start;
    polls := 0;
    while clock < deadline
      invariant clock == (if polls == 0 then start else world(polls - 1).at)
      invariant clock >= start + polls * WAIT_STEP_MS
      invariant polls <= WAIT_MAX_MS / WAIT_STEP_MS
      invariant forall k: nat :: k < polls ==> !Finds(world(k))
      invariant forall k: nat :: k + 1 < polls ==> world(k).at < deadline
      decreases deadline - clock
    {
      assert world(polls).at >= clock + WAIT_STEP_MS by {
        if polls > 0 { assert world(polls - 1 + 1).at >= world(polls - 1).at + WAIT_STEP_MS; }
      }
      var s := world(polls);
      polls := polls + 1;
      clock := s.at;
      if s.row.Some? && StillGood(s.row.value.expiresAt, s.at) {
        return Some(s.row.value.access), polls;
      }
    }
    token := None;
  }

  // --- The machine -----------------------------------------------------------

  /** Where a call stands. Every value that survives an `await` is in here. */
  datatype Pc =
    | Reading
    | Deciding(found: Option<Row>)
    | Joined(owner: CallId)
    | Starting(seen: Row)
    | Taking(seen: Row, ora: int)
    | Waiting(deadline: int)
    | Exchanging(seen: Row, ora: int)
    | Saving(seen: Row, ora: int, grant: Grant)
    | Rereading(error: Failure)
    | Settled(outcome: Outcome)
    | Returned(outcome: Outcome)
    | Dead

  datatype Call = Call(home: Instance, pc: Pc)

  datatype Event =
    | TookTurn(call: CallId, version: int, ora: int, current: Token)
    | Presented(call: CallId, refresh: Token, valid: Token, reply: Reply)
    | SavedGrant(call: CallId, access: Token, spent: Token)
    | GrantLost
    | FoundGood(call: CallId, access: Token, expiresAt: int, at: int)
    | GaveUp(call: CallId, row: Option<Row>, at: int)
    | JoinedFlight(call: CallId, owner: CallId)

  /**
   The four mechanisms, each of which can be switched off to see what it is for: the guard
   of the update on the version that was read, the wait for the lease, the map of an
   instance, and the re-read after a failure. The app has all of them.
   */
  datatype Rules = Rules(guarded: bool, leased: bool, mapped: bool, rereads: bool)

  datatype World = World(
    now: int,
    configured: bool,
    row: Option<Row>,
    calls: map<CallId, Call>,
    flights: map<Instance, CallId>,
    // The refresh token the provider would honour now, and the next unused token.
    provider: Token,
    minted: Token,
    log: seq<Event>,
    rules: Rules)

  /** How the provider answers: it honours only its current token, and may fail on any. */
  datatype Reply = Granted(expiresIn: nat) | Refused(status: Option<int>) | ReplyLost

  /** The synchronous segments of one call. A write may be executed without the call hearing of it. */
  datatype Action =
    | Read
    | Decide
    | Sample
    | Commit(heard: bool)
    | Poll(lag: nat)
    | Exchange(reply: Reply)
    | Save(computedAt: int, stamp: int, heard: bool)
    | Reread(lag: nat)
    | Abort
    | Finish
    | Resolve

  datatype Step =
    | Tick(elapsed: nat)
    | Begin(newcomer: CallId, home: Instance)
    | Segment(call: CallId, action: Action)
    | Crash(instance: Instance)
    | Relink(expiresIn: nat, stamp: int)
    | Unlink

  /** The calls whose promise is in the map of their instance. */
  predicate InFlight(pc: Pc) {
    || pc.Starting? || pc.Taking? || pc.Waiting? || pc.Exchanging?
    || pc.Saving? || pc.Rereading? || pc.Settled?
  }

  /** The critical section: the turn is held and the grant is not yet saved. */
  predicate Holding(pc: Pc) {
    pc.Exchanging? || pc.Saving?
  }

  predicate Finished(pc: Pc) {
    pc.Returned? || pc.Dead?
  }

  predicate Ready(w: World, c: CallId, a: Action) {
    && c in w.calls
    && var pc := w.calls[c].pc;
    match a
    case Read => pc.Reading?
    case Decide => pc.Deciding?
    case Sample => pc.Starting?
    case Commit(_) => pc.Taking?
    case Poll(_) => pc.Waiting?
    case Exchange(reply) => pc.Exchanging? && (!reply.Refused? ==> pc.seen.refresh == w.provider)
    case Save(computedAt, stamp, _) => pc.Saving? && pc.ora <= computedAt <= stamp <= w.now
    case Reread(_) => pc.Rereading?
    case Abort => pc.Reading? || (InFlight(pc) && !pc.Settled?)
    case Finish => pc.Settled?
    case Resolve =>
      && pc.Joined? && pc.owner in w.calls
      && (w.calls[pc.owner].pc.Settled? || w.calls[pc.owner].pc.Returned?)
  }

  predicate Enabled(w: World, s: Step) {
    match s
    case Tick(_) => true
    case Begin(c, _) => c !in w.calls
    case Segment(c, a) => Ready(w, c, a)
    case Crash(_) => true
    case Relink(_, stamp) => stamp <= w.now
    case Unlink => true
  }

  /**
   What the environment may do to a call: break it off wherever it awaits something, keep it
   from hearing of a write, turn its token down with any status, lose the answer to a token
   that was honoured; and a joiner gets its answer once the flight it joined has one.
   */
  lemma TheWorstMayHappen(w: World, c: CallId, status: Option<int>)
    requires c in w.calls
    ensures var pc := w.calls[c].pc;
      && (Ready(w, c, Abort) <==>
           pc.Reading? || pc.Starting? || pc.Taking? || pc.Waiting? || pc.Exchanging? || pc.Saving? || pc.Rereading?)
      && (pc.Taking? ==> Ready(w, c, Commit(true)) && Ready(w, c, Commit(false)))
      && (pc.Exchanging? ==> Ready(w, c, Exchange(Refused(status))))
      && (pc.Exchanging? && pc.seen.refresh == w.provider ==> Ready(w, c, Exchange(ReplyLost)))
      && (pc.Joined? && pc.owner in w.calls && (w.calls[pc.owner].pc.Settled? || w.calls[pc.owner].pc.Returned?) ==> Ready(w, c, Resolve))
  {
  }

  datatype MapUse = Keep | Enter | Leave

  /** What one segment changes: the place of its call, its map entry, the row, the provider. */
  datatype Effect = Effect(
    pc: Pc, mapUse: MapUse, row: Option<Row>, provider: Token, minted: Token, events: seq<Event>)

  function Only(w: World, pc: Pc, events: seq<Event>): Effect {
    Effect(pc, Keep, w.row, w.provider, w.minted, events)
  }

  /** The segment after the first read: the good token, the map, or a new flight. */
  function DecideEffect(w: World, c: CallId): Effect
    requires Ready(w, c, Decide)
  {
    var call := w.calls[c];
    match call.pc.found
    case None => Only(w, Returned(Failed(NotLinked)), [])
    case Some(row) =>
      if StillGood(row.expiresAt, w.now) then
        Only(w, Returned(Answer(row.access)), [FoundGood(c, row.access, row.expiresAt, w.now)])
      else if w.rules.mapped && call.home in w.flights then
        Only(w, Joined(w.flights[call.home]), [JoinedFlight(c, w.flights[call.home])])
      else
        Only(w, if w.configured then Starting(row) else Settled(Failed(NotConfigured)), []).(mapUse := Enter)
  }

  /** The turn: tested on the clock before the update is sent, then on the row when it commits. */
  function SampleEffect(w: World, c: CallId): Effect
    requires Ready(w, c, Sample)
  {
    var seen := w.calls[c].pc.seen;
    Only(w, if !w.rules.leased || TurnIsFree(seen.updatedAt, w.now) then Taking(seen, w.now) else Waiting(w.now + WAIT_MAX_MS), [])
  }

  function CommitEffect(w: World, c: CallId, heard: bool): Effect
    requires Ready(w, c, Commit(heard))
  {
    var pc := w.calls[c].pc;
    if GuardHolds(w.row, pc.seen.updatedAt) || (!w.rules.guarded && w.row.Some?) then
      Only(w, if heard then Exchanging(pc.seen, pc.ora) else Settled(Failed(StorageError)),
           [TookTurn(c, pc.seen.updatedAt, pc.ora, w.row.value.refresh)])
        .(row := AfterTake(w.row, w.row.value.updatedAt, pc.ora))
    else
      Only(w, if heard then Waiting(w.now + WAIT_MAX_MS) else Settled(Failed(StorageError)), [])
  }

  function ExchangeEffect(w: World, c: CallId, reply: Reply): Effect
    requires Ready(w, c, Exchange(reply))
  {
    var pc := w.calls[c].pc;
    var presented := Presented(c, pc.seen.refresh, w.provider, reply);
    match reply
    case Granted(expiresIn) =>
      Only(w, Saving(pc.seen, pc.ora, Grant(w.minted, w.minted + 1, expiresIn)), [presented])
        .(provider := w.minted + 1, minted := w.minted + 2)
    case ReplyLost =>
      Only(w, Rereading(ProviderError(None, false)), [presented, GrantLost])
        .(provider := w.minted + 1, minted := w.minted + 2)
    case Refused(status) =>
      Only(w, Rereading(ProviderError(status, false)), [presented])
  }

  /** A read of the row checked `lag` later: the token it holds if that is still good. */
  function LookedUp(w: World, c: CallId, lag: nat, otherwise: Effect): Effect {
    if HoldsGood(w.row, w.now + lag) then
      Only(w, Settled(Answer(w.row.value.access)),
           [FoundGood(c, w.row.value.access, w.row.value.expiresAt, w.now + lag)])
    else
      otherwise
  }

  function EffectOf(w: World, c: CallId, a: Action): Effect
    requires Ready(w, c, a)
  {
    var pc := w.calls[c].pc;
    match a
    case Read => Only(w, Deciding(w.row), [])
    case Decide => DecideEffect(w, c)
    case Sample => SampleEffect(w, c)
    case Commit(heard) => CommitEffect(w, c, heard)
    case Poll(lag) =>
      LookedUp(w, c, lag, Only(w, if w.now + lag < pc.deadline then pc else Settled(Failed(RenewalInProgress)), []))
    case Exchange(reply) => ExchangeEffect(w, c, reply)
    case Save(computedAt, stamp, heard) =>
      Only(w, Settled(if heard then Answer(pc.grant.access) else Failed(StorageError)),
           [SavedGrant(c, pc.grant.access, pc.seen.refresh)])
        .(row := AfterSave(pc.grant, computedAt, stamp))
    case Reread(lag) =>
      var givenUp := Only(w, Settled(Failed(Confirm(pc.error))), [GaveUp(c, w.row, w.now + lag)]);
      if w.rules.rereads then LookedUp(w, c, lag, givenUp) else givenUp
    case Abort =>
      Only(w, if pc.Reading? then Returned(Failed(StorageError)) else Settled(Failed(StorageError)),
           if pc.Saving? then [GrantLost] else [])
    case Finish => Only(w, Returned(pc.outcome), []).(mapUse := Leave)
    case Resolve => Only(w, Returned(w.calls[pc.owner].pc.outcome), [])
  }

  function AfterSegment(w: World, c: CallId, e: Effect): World
    requires c in w.calls
  {
    var home := w.calls[c].home;
    w.(calls := w.calls[c := Call(home, e.pc)],
       flights := (match e.mapUse
                   case Keep => w.flights
                   case Enter => w.flights[home := c]
                   case Leave => w.flights - {home}),
       row := e.row, provider := e.provider, minted := e.minted, log := w.log + e.events)
  }

  function AfterCrash(w: World, home: Instance): World {
    var lost := exists c | c in w.calls :: w.calls[c].home == home && w.calls[c].pc.Saving?;
    w.(calls := map c | c in w.calls ::
                  if w.calls[c].home == home && !Finished(w.calls[c].pc)
                  then w.calls[c].(pc := Dead) else w.calls[c],
       flights := w.flights - {home},
       log := w.log + if lost then [GrantLost] else [])
  }

  function Apply(w: World, s: Step): World
    requires Enabled(w, s)
  {
    match s
    case Tick(elapsed) => w.(now := w.now + elapsed)
    case Begin(c, home) => w.(calls := w.calls[c := Call(home, Reading)])
    case Segment(c, a) => AfterSegment(w, c, EffectOf(w, c, a))
    case Crash(home) => AfterCrash(w, home)
    case Relink(expiresIn, stamp) =>
      w.(row := AfterSave(Grant(w.minted, w.minted + 1, expiresIn), stamp, stamp),
         provider := w.minted + 1, minted := w.minted + 2)
    case Unlink => w.(row := None)
  }

  // --- What is not the calls' own doing ------------------------------------------------

  /** Tokens are minted afresh; the grant carries the one that is honoured from now on; only a lost answer loses it. */
  lemma ProviderMintsAfresh(w: World, c: CallId, reply: Reply)
    requires Ready(w, c, Exchange(reply))
    ensures var e := EffectOf(w, c, Exchange(reply));
      && (reply.Refused? ==> e.provider == w.provider && e.minted == w.minted)
      && (!reply.Refused? ==> w.minted <= e.provider < e.minted)
      && (reply.Granted? ==>
           && e.pc.Saving? && e.pc.grant.refresh == e.provider && e.pc.grant.expiresIn == reply.expiresIn
           && w.minted <= e.pc.grant.access < e.minted && e.pc.grant.access != e.provider)
      && (GrantLost in e.events <==> reply.ReplyLost?)
      && e.row == w.row && e.mapUse.Keep?
  {
  }

  /** A crash ends what is going on in its instance and nothing else; it loses a grant exactly when one was about to be saved there. */
  lemma CrashTakesItsInstanceAlone(w: World, home: Instance)
    ensures var next := Apply(w, Crash(home));
      && next.row == w.row && next.provider == w.provider && next.minted == w.minted && next.now == w.now
      && next.calls.Keys == w.calls.Keys && home !in next.flights
      && (forall i | i in w.flights && i != home :: i in next.flights && next.flights[i] == w.flights[i])
      && (forall c | c in w.calls ::
           if w.calls[c].home != home || w.calls[c].pc.Returned? || w.calls[c].pc.Dead? then next.calls[c] == w.calls[c]
           else next.calls[c] == Call(home, Dead))
      && ((exists c | c in w.calls :: w.calls[c].home == home && w.calls[c].pc.Saving?) ==> next.log == w.log + [GrantLost])
      && ((forall c | c in w.calls :: w.calls[c].home == home ==> !w.calls[c].pc.Saving?) ==> next.log == w.log)
  {
  }

  /** Linking again replaces the row by fresh tokens, the ones that are honoured from now on. */
  lemma RelinkReplacesTheRow(w: World, expiresIn: nat, stamp: int)
    requires stamp <= w.now
    ensures var next := Apply(w, Relink(expiresIn, stamp));
      && next.row.Some? && next.row.value.refresh == next.provider && next.row.value.updatedAt == stamp
      && w.minted <= next.row.value.access < next.minted && w.minted <= next.provider < next.minted
      && next.row.value.access != next.provider
      && next.row.value.expiresAt == stamp + 1000 * expiresIn
      && next.calls == w.calls && next.flights == w.flights && next.log == w.log
    ensures Apply(w, Unlink) == w.(row := None)
  {
  }

  // --- Runs --------------------------------------------------------------------

  predicate Initial(w: World) {
    && w.calls == map[] && w.flights == map[] && w.log == []
    && (w.row.Some? ==> w.row.value.refresh < w.minted && w.row.value.refresh == w.provider)
  }

  predicate Run(w: World, steps: seq<Step>)
    decreases |steps|
  {
    steps == [] || (Enabled(w, steps[0]) && Run(Apply(w, steps[0]), steps[1..]))
  }

  function Exec(w: World, steps: seq<Step>): World
    requires Run(w, steps)
    decreases |steps|
  {
    if steps == [] then w else Exec(Apply(w, steps[0]), steps[1..])
  }

  /** Every holder of a turn is still within `lease` of the `ora` it took the turn at. */
  ghost predicate Timely(w: World, lease: nat) {
    forall c | c in w.calls && Holding(w.calls[c].pc) :: w.now < w.calls[c].pc.ora + lease
  }

  /**
   The assumptions of the lease on single steps: nobody writes the row from outside
   and, when `strict`, a save gets a later version than the take it follows. (The
   machine itself only promises a version that is not earlier.)
   */
  ghost predicate OrderlyStep(w: World, s: Step, strict: bool)
    requires Enabled(w, s)
  {
    match s
    case Segment(c, Save(_, stamp, _)) => strict ==> stamp > w.calls[c].pc.ora
    case Relink(_, _) => false
    case Unlink => false
    case _ => true
  }

  ghost predicate OrderlyRun(w: World, steps: seq<Step>, strict: bool, lease: nat)
    decreases |steps|
  {
    && w.row.Some?
    && Timely(w, lease)
    && (steps == [] ||
        (&& Enabled(w, steps[0])
         && OrderlyStep(w, steps[0], strict)
         && OrderlyRun(Apply(w, steps[0]), steps[1..], strict, lease)))
  }

  lemma OrderlyIsRun(w: World, steps: seq<Step>, strict: bool, lease: nat)
    requires OrderlyRun(w, steps, strict, lease)
    ensures Run(w, steps)
    decreases |steps|
  {
    if steps != [] {
      OrderlyIsRun(Apply(w, steps[0]), steps[1..], strict, lease);
    }
  }

  // --- What holds of every run ------------------------------------------------

  /** `d` itself read a good token, or saved the one its own exchange produced. */
  ghost predicate Obtained(log: seq<Event>, d: CallId, access: Token) {
    || (exists expiresAt, at :: FoundGood(d, access, expiresAt, at) in log && StillGood(expiresAt, at))
    || (exists spent :: SavedGrant(d, access, spent) in log)
  }

  /** `d` looked at the row before it gave up, and found no good token there. */
  ghost predicate LookedInVain(log: seq<Event>, d: CallId) {
    exists row, at :: GaveUp(d, row, at) in log && !HoldsGood(row, at)
  }

  /** The provider turned `d` down with that status, or its answer was lost and there is none. */
  ghost predicate TurnedDown(log: seq<Event>, d: CallId, status: Option<int>) {
    exists refresh, valid, reply :: Presented(d, refresh, valid, reply) in log && FailsWith(reply, status)
  }

  ghost predicate FailsWith(reply: Reply, status: Option<int>) {
    reply == Refused(status) || (reply == ReplyLost && status == None)
  }

  /** The statuses after which only the merchant can help. */
  ghost predicate AsksToRelink(status: Option<int>) {
    status == Some(400) || status == Some(401) || status == Some(403) || status == Some(404)
  }

  /**
   The outcome has its reason in what `d` itself did. A provider error is the one its own
   exchange met, and it calls the credential dead exactly when its status does.
   */
  ghost predicate ByItself(log: seq<Event>, d: CallId, o: Outcome) {
    && (o.Answer? ==> Obtained(log, d, o.access))
    && (o.Failed? && o.error.ProviderError? ==>
          && LookedInVain(log, d)
          && TurnedDown(log, d, o.error.status)
          && (CredentialDead(o.error) <==> AsksToRelink(o.error.status)))
  }

  /** The outcome has its reason in what the call did, or in what the flight it joined did. */
  ghost predicate Justified(log: seq<Event>, c: CallId, o: Outcome) {
    ByItself(log, c, o) || exists d :: JoinedFlight(c, d) in log && ByItself(log, d, o)
  }

  ghost predicate AnswersJustified(w: World) {
    forall c | c in w.calls && (w.calls[c].pc.Settled? || w.calls[c].pc.Returned?) ::
      Justified(w.log, c, w.calls[c].pc.outcome)
  }

  /** The map of an instance names a call exactly while that call's renewal is in flight. */
  ghost predicate FlightsExact(w: World) {
    && (forall i | i in w.flights ::
          && w.flights[i] in w.calls
          && w.calls[w.flights[i]].home == i
          && InFlight(w.calls[w.flights[i]].pc))
    && (forall c | c in w.calls && InFlight(w.calls[c].pc) ::
          w.calls[c].home in w.flights && w.flights[w.calls[c].home] == c)
  }

  /** A joiner waits for a renewal of its own instance that is in flight or over, and that joined nobody. */
  ghost predicate JoinersAttached(w: World) {
    && (forall c | c in w.calls && w.calls[c].pc.Joined? ::
          var d := w.calls[c].pc.owner;
          && d in w.calls
          && w.calls[d].home == w.calls[c].home
          && (InFlight(w.calls[d].pc) || w.calls[d].pc.Returned?)
          && JoinedFlight(c, d) in w.log
          && (forall x :: JoinedFlight(d, x) !in w.log))
    && (forall c, d :: JoinedFlight(c, d) in w.log ==>
          c in w.calls && (w.calls[c].pc == Joined(d) || Finished(w.calls[c].pc)))
  }

  /** Whoever joined a flight has given, or is waiting to give, the outcome of that flight. */
  ghost predicate JoinersShareOutcome(w: World) {
    forall c, d :: JoinedFlight(c, d) in w.log && c in w.calls && w.calls[c].pc.Returned? ==>
      && d in w.calls
      && (w.calls[d].pc.Settled? || w.calls[d].pc.Returned? || w.calls[d].pc.Dead?)
      && (!w.calls[d].pc.Dead? ==> w.calls[d].pc.outcome == w.calls[c].pc.outcome)
  }

  /** A call that looks again carries the error its exchange met, not yet confirmed by anything. */
  ghost predicate RereadersTurnedDown(w: World) {
    forall c | c in w.calls && w.calls[c].pc.Rereading? ::
      var e := w.calls[c].pc.error;
      e.ProviderError? && !e.confirmed && TurnedDown(w.log, c, e.status)
  }

  ghost predicate AnswerInv(w: World) {
    && w.rules.mapped && w.rules.rereads
    && FlightsExact(w) && JoinersAttached(w) && JoinersShareOutcome(w)
    && RereadersTurnedDown(w) && AnswersJustified(w)
  }

  lemma StillTurnedDown(log: seq<Event>, more: seq<Event>, d: CallId, status: Option<int>)
    ensures TurnedDown(log, d, status) ==> TurnedDown(log + more, d, status)
  {
    if TurnedDown(log, d, status) {
      var refresh, valid, reply :| Presented(d, refresh, valid, reply) in log && FailsWith(reply, status);
      assert Presented(d, refresh, valid, reply) in log + more;
    }
  }

  lemma HistoryOnlyGrows(log: seq<Event>, more: seq<Event>, c: CallId, o: Outcome)
    requires Justified(log, c, o)
    ensures Justified(log + more, c, o)
  {
    forall d | ByItself(log, d, o)
      ensures ByItself(log + more, d, o)
    {
      if o.Answer? {
        if expiresAt, at :| FoundGood(d, o.access, expiresAt, at) in log && StillGood(expiresAt, at) {
          assert FoundGood(d, o.access, expiresAt, at) in log + more;
        } else {
          var spent :| SavedGrant(d, o.access, spent) in log;
          assert SavedGrant(d, o.access, spent) in log + more;
        }
      } else if o.error.ProviderError? {
        var row, at :| GaveUp(d, row, at) in log && !HoldsGood(row, at);
        assert GaveUp(d, row, at) in log + more;
        StillTurnedDown(log, more, d, o.error.status);
      }
    }
    if !ByItself(log, c, o) {
      var d :| JoinedFlight(c, d) in log && ByItself(log, d, o);
      assert JoinedFlight(c, d) in log + more;
    }
  }

  ghost predicate FailsBy(pc: Pc, e: Failure) {
    (pc.Settled? || pc.Returned?) && pc.outcome == Failed(e)
  }

  /** A good token that is seen is the answer, and every other failure has its one cause. */
  lemma EveryFailureHasItsCause(w: World, c: CallId, a: Action)
    requires AnswerInv(w) && Ready(w, c, a) && !a.Finish? && !a.Resolve?
    ensures var pc, next := w.calls[c].pc, EffectOf(w, c, a).pc;
      && (a.Decide? && HoldsGood(pc.found, w.now) ==> next == Returned(Answer(pc.found.value.access)))
      && (a.Poll? && HoldsGood(w.row, w.now + a.lag) ==> next == Settled(Answer(w.row.value.access)))
      && (FailsBy(next, NotLinked) <==> a.Decide? && pc.found.None?)
      && (FailsBy(next, NotConfigured) <==>
           a.Decide? && pc.found.Some? && !HoldsGood(pc.found, w.now) && w.calls[c].home !in w.flights && !w.configured)
      && (FailsBy(next, RenewalInProgress) <==> a.Poll? && !HoldsGood(w.row, w.now + a.lag) && w.now + a.lag >= pc.deadline)
      && (FailsBy(next, StorageError) <==> a.Abort? || (a.Commit? && !a.heard) || (a.Save? && !a.heard))
      && (next.Waiting? && !a.Poll? ==> next.deadline == w.now + 3_000)
  {
    assert a.Reread? ==> w.calls[c].pc.error.ProviderError?;
  }

  /**
   A provider error is first given by a re-read, over a row without a good token at that
   instant; a re-read over a good token answers with it. What the history says of a row
   or of the provider is what was there.
   */
  lemma ErrorOnlyOverNoGoodToken(w: World, c: CallId, a: Action)
    requires Ready(w, c, a) && w.rules.rereads
    ensures var pc := EffectOf(w, c, a).pc;
      && (pc.Settled? && pc.outcome.Failed? && pc.outcome.error.ProviderError? ==> a.Reread? && !HoldsGood(w.row, w.now + a.lag))
      && (a.Reread? && HoldsGood(w.row, w.now + a.lag) ==> pc == Settled(Answer(w.row.value.access)))
    ensures forall e | e in EffectOf(w, c, a).events && e.GaveUp? :: e.call == c && e.row == w.row && w.now <= e.at
    ensures forall e | e in EffectOf(w, c, a).events && e.Presented? ::
      a.Exchange? && e.call == c && e.reply == a.reply && e.refresh == w.calls[c].pc.seen.refresh && e.valid == w.provider
    ensures forall e | e in EffectOf(w, c, a).events && e.FoundGood? ::
      e.call == c && w.now <= e.at && var row := if a.Decide? then w.calls[c].pc.found else w.row;
      HoldsGood(row, e.at) && e.access == row.value.access && e.expiresAt == row.value.expiresAt
  {
  }

  /** A segment that goes on to look again has met the error it carries. */
  lemma NewRereaderTurnedDown(w: World, c: CallId, a: Action)
    requires Ready(w, c, a) && EffectOf(w, c, a).pc.Rereading?
    ensures var e, log := EffectOf(w, c, a).pc.error, w.log + EffectOf(w, c, a).events;
      e.ProviderError? && !e.confirmed && TurnedDown(log, c, e.status)
  {
    var pc, error := w.calls[c].pc, EffectOf(w, c, a).pc.error;
    var presented := Presented(c, pc.seen.refresh, w.provider, a.reply);
    assert presented in w.log + EffectOf(w, c, a).events && FailsWith(a.reply, error.status);
  }

  lemma RereadersStayTurnedDown(w: World, s: Step)
    requires RereadersTurnedDown(w) && Enabled(w, s)
    ensures RereadersTurnedDown(Apply(w, s))
  {
    var next := Apply(w, s);
    var more := next.log[|w.log|..];
    assert next.log == w.log + more;
    forall c | c in next.calls && next.calls[c].pc.Rereading?
      ensures var e := next.calls[c].pc.error; e.ProviderError? && !e.confirmed && TurnedDown(next.log, c, e.status)
    {
      if s.Segment? && s.call == c {
        NewRereaderTurnedDown(w, c, s.action);
      } else {
        StillTurnedDown(w.log, more, c, w.calls[c].pc.error.status);
      }
    }
  }

  /** A segment that produces an answer leaves its reason in the history. */
  lemma NewAnswerJustified(w: World, c: CallId, a: Action)
    requires AnswerInv(w) && Ready(w, c, a)
    requires var pc := EffectOf(w, c, a).pc; pc.Settled? || pc.Returned?
    ensures Justified(w.log + EffectOf(w, c, a).events, c, EffectOf(w, c, a).pc.outcome)
  {
    var e := EffectOf(w, c, a);
    var log := w.log + e.events;
    var o := e.pc.outcome;
    match a
    case Decide =>
      if o.Answer? {
        var row := w.calls[c].pc.found.value;
        assert FoundGood(c, row.access, row.expiresAt, w.now) in log;
      }
    case Poll(lag) =>
      if o.Answer? {
        assert FoundGood(c, o.access, w.row.value.expiresAt, w.now + lag) in log;
      }
    case Reread(lag) =>
      if o.Answer? {
        assert FoundGood(c, o.access, w.row.value.expiresAt, w.now + lag) in log;
      } else {
        assert GaveUp(c, w.row, w.now + lag) in log && !HoldsGood(w.row, w.now + lag);
        StillTurnedDown(w.log, e.events, c, o.error.status);
      }
    case Save(_, _, heard) =>
      assert heard ==> SavedGrant(c, o.access, w.calls[c].pc.seen.refresh) in log;
    case Finish =>
      HistoryOnlyGrows(w.log, e.events, c, o);
    case Resolve =>
      var d := w.calls[c].pc.owner;
      assert ByItself(w.log, d, o);
      HistoryOnlyGrows(w.log, e.events, c, o);
    case _ =>
  }

  /** A segment enters the map when its renewal starts, leaves it when that is over, and keeps it between. */
  lemma MapFollowsFlight(w: World, c: CallId, a: Action)
    requires Ready(w, c, a) && w.rules.mapped
    ensures var e := EffectOf(w, c, a);
      match e.mapUse
      case Keep => InFlight(e.pc) <==> InFlight(w.calls[c].pc)
      case Enter => w.calls[c].home !in w.flights && InFlight(e.pc)
      case Leave => InFlight(w.calls[c].pc) && !InFlight(e.pc)
  {
  }

  lemma SegmentKeepsFlights(w: World, c: CallId, e: Effect)
    requires FlightsExact(w) && c in w.calls
    requires match e.mapUse
      case Keep => InFlight(e.pc) <==> InFlight(w.calls[c].pc)
      case Enter => w.calls[c].home !in w.flights && InFlight(e.pc)
      case Leave => InFlight(w.calls[c].pc) && !InFlight(e.pc)
    ensures FlightsExact(AfterSegment(w, c, e))
  {
  }

  lemma CrashKeepsFlights(w: World, home: Instance)
    requires FlightsExact(w)
    ensures FlightsExact(AfterCrash(w, home))
  {
  }

  lemma FlightsStayExact(w: World, s: Step)
    requires FlightsExact(w) && w.rules.mapped && Enabled(w, s)
    ensures FlightsExact(Apply(w, s))
  {
    match s
    case Segment(c, a) =>
      MapFollowsFlight(w, c, a);
      SegmentKeepsFlights(w, c, EffectOf(w, c, a));
    case Crash(home) => CrashKeepsFlights(w, home);
    case _ =>
  }

  /** Who may join, and what becomes of a call others have joined. */
  lemma JoinDiscipline(w: World, c: CallId, a: Action)
    requires FlightsExact(w) && Ready(w, c, a)
    ensures var pc, e := w.calls[c].pc, EffectOf(w, c, a);
      && !Finished(pc)
      && (InFlight(pc) ==> InFlight(e.pc) || e.pc.Returned?)
      && (pc.Joined? ==> e.pc.Returned?)
      && (e.pc.Joined? ==>
            && e.events == [JoinedFlight(c, e.pc.owner)]
            && w.calls[c].home in w.flights && e.pc.owner == w.flights[w.calls[c].home])
      && (!e.pc.Joined? ==> forall x, d :: JoinedFlight(x, d) !in e.events)
  {
  }

  lemma SegmentKeepsJoiners(w: World, c: CallId, e: Effect)
    requires FlightsExact(w) && JoinersAttached(w) && c in w.calls
    requires var pc := w.calls[c].pc;
      && !Finished(pc)
      && (InFlight(pc) ==> InFlight(e.pc) || e.pc.Returned?)
      && (pc.Joined? ==> e.pc.Returned?)
      && (e.pc.Joined? ==>
            && e.events == [JoinedFlight(c, e.pc.owner)]
            && w.calls[c].home in w.flights && e.pc.owner == w.flights[w.calls[c].home])
      && (!e.pc.Joined? ==> forall x, d :: JoinedFlight(x, d) !in e.events)
    ensures JoinersAttached(AfterSegment(w, c, e))
  {
    var next := AfterSegment(w, c, e);
    forall x, d | JoinedFlight(x, d) in next.log
      ensures JoinedFlight(x, d) in w.log || (x == c && e.pc == Joined(d))
    {
    }
    forall x | x in next.calls && next.calls[x].pc.Joined?
      ensures JoinedFlight(x, next.calls[x].pc.owner) in next.log
    {
    }
  }

  lemma CrashKeepsJoiners(w: World, home: Instance)
    requires FlightsExact(w) && JoinersAttached(w)
    ensures JoinersAttached(AfterCrash(w, home))
  {
    var next := AfterCrash(w, home);
    assert forall x, d :: JoinedFlight(x, d) in next.log <==> JoinedFlight(x, d) in w.log;
  }

  lemma OtherStepsKeepJoiners(w: World, s: Step)
    requires FlightsExact(w) && JoinersAttached(w) && Enabled(w, s) && !s.Segment? && !s.Crash?
    ensures JoinersAttached(Apply(w, s))
  {
    assert forall x, d :: JoinedFlight(x, d) in Apply(w, s).log <==> JoinedFlight(x, d) in w.log;
  }

  lemma JoinersKeepSharing(w: World, s: Step)
    requires AnswerInv(w) && Enabled(w, s)
    ensures JoinersShareOutcome(Apply(w, s))
  {
    var next := Apply(w, s);
    forall c, d | JoinedFlight(c, d) in next.log && c in next.calls && next.calls[c].pc.Returned?
      ensures
        && d in next.calls
        && (next.calls[d].pc.Settled? || next.calls[d].pc.Returned? || next.calls[d].pc.Dead?)
        && (!next.calls[d].pc.Dead? ==> next.calls[d].pc.outcome == next.calls[c].pc.outcome)
    {
      if s.Segment? {
        JoinDiscipline(w, s.call, s.action);
      }
      assert JoinedFlight(c, d) in w.log;
    }
  }

  lemma AnswersStayJustified(w: World, s: Step)
    requires AnswerInv(w) && Enabled(w, s)
    ensures AnswersJustified(Apply(w, s))
  {
    var next := Apply(w, s);
    var more := next.log[|w.log|..];
    assert next.log == w.log + more;
    forall c | c in next.calls && (next.calls[c].pc.Settled? || next.calls[c].pc.Returned?)
      ensures Justified(next.log, c, next.calls[c].pc.outcome)
    {
      if s.Segment? && s.call == c {
        NewAnswerJustified(w, c, s.action);
      } else {
        HistoryOnlyGrows(w.log, more, c, w.calls[c].pc.outcome);
      }
    }
  }

  /**
   In every run, whatever the clock, the provider, crashes and re-links do: a token
   is returned only for a reason, a provider error (and with it a 404 that means a
   dead credential) surfaces only after an empty re-read, joiners give the outcome of
   their flight, and the in-process maps name exactly the renewals in flight.
   */
  lemma {:induction false} EveryAnswerHasAReason(w: World, steps: seq<Step>)
    requires Run(w, steps) && w.rules.mapped && w.rules.rereads
    requires Initial(w) || AnswerInv(w)
    ensures AnswerInv(Exec(w, steps))
    decreases |steps|
  {
    if steps != [] {
      FlightsStayExact(w, steps[0]);
      match steps[0] {
        case Segment(c, a) =>
          JoinDiscipline(w, c, a);
          SegmentKeepsJoiners(w, c, EffectOf(w, c, a));
        case Crash(home) => CrashKeepsJoiners(w, home);
        case _ => OtherStepsKeepJoiners(w, steps[0]);
      }
      JoinersKeepSharing(w, steps[0]);
      RereadersStayTurnedDown(w, steps[0]);
      AnswersStayJustified(w, steps[0]);
      EveryAnswerHasAReason(Apply(w, steps[0]), steps[1..]);
    }
  }

  // --- The lease -----------------------------------------------------------------

  /** At most one call is between its take and its save. */
  ghost predicate ExclusiveHolder(w: World) {
    forall c, d | c in w.calls && d in w.calls && Holding(w.calls[c].pc) && Holding(w.calls[d].pc) :: c == d
  }

  /** Later takes start from a version no older than an earlier take, and move it on by a whole lease. */
  ghost predicate TurnsApart(log: seq<Event>) {
    && (forall i | 0 <= i < |log| && log[i].TookTurn? :: log[i].ora >= log[i].version + 10_000)
    && (forall i, j | 0 <= i < j < |log| && log[i].TookTurn? && log[j].TookTurn? :: log[j].version >= log[i].ora)
  }

  /** Every token presented is the one the row held when its presenter took the turn. */
  ghost predicate PresentedFromTheRow(log: seq<Event>) {
    forall j | 0 <= j < |log| && log[j].Presented? ::
      exists i :: 0 <= i < j && log[i].TookTurn? && log[i].call == log[j].call && log[i].current == log[j].refresh
  }

  /** A token exchanged and saved is never presented again. */
  ghost predicate SpentNeverPresented(log: seq<Event>) {
    forall i, j | 0 <= i < j < |log| && log[i].SavedGrant? && log[j].Presented? :: log[j].refresh != log[i].spent
  }

  /** As long as no grant has been lost, every token presented is the one the provider honours. */
  ghost predicate NoLostRace(log: seq<Event>) {
    forall j | 0 <= j < |log| && log[j].Presented? && GrantLost !in log[..j] :: log[j].refresh == log[j].valid
  }

  /** Of all the takers that hold one version of the row, one wins. */
  ghost predicate OneWinnerPerVersion(log: seq<Event>) {
    forall i, j | 0 <= i < |log| && 0 <= j < |log| && log[i].TookTurn? && log[j].TookTurn?
      && log[i].version == log[j].version :: i == j
  }

  ghost predicate HasSnapshot(pc: Pc) {
    (pc.Deciding? && pc.found.Some?) || pc.Starting? || pc.Taking?
  }

  function Snapshot(pc: Pc): Row
    requires HasSnapshot(pc)
  {
    if pc.Deciding? then pc.found.value else pc.seen
  }

  /** A snapshot is no newer than the row, and the same version carries the same token. */
  ghost predicate SnapshotFits(row: Row, pc: Pc) {
    && (HasSnapshot(pc) ==>
          && Snapshot(pc).updatedAt <= row.updatedAt
          && (Snapshot(pc).updatedAt == row.updatedAt ==> Snapshot(pc).refresh == row.refresh))
    && (pc.Taking? ==> TurnIsFree(pc.seen.updatedAt, pc.ora))
  }

  /** While a turn is held the row is as its take left it. */
  ghost predicate HolderFits(w: World, pc: Pc) {
    && (pc.Taking? ==> pc.ora <= w.now)
    && (Holding(pc) ==> w.row.Some? && w.row.value.updatedAt == pc.ora && w.row.value.refresh == pc.seen.refresh)
    && (pc.Saving? ==> pc.seen.refresh < pc.grant.refresh < w.minted)
    && (pc.Exchanging? && GrantLost !in w.log ==> pc.seen.refresh == w.provider)
    && (pc.Saving? && GrantLost !in w.log ==> pc.grant.refresh == w.provider)
  }

  ghost predicate SnapshotsFit(w: World) {
    w.row.Some? && forall c | c in w.calls :: SnapshotFits(w.row.value, w.calls[c].pc)
  }

  ghost predicate HoldersFit(w: World) {
    && w.row.Some?
    && w.row.value.refresh < w.minted
    && ExclusiveHolder(w)
    && (forall c | c in w.calls :: HolderFits(w, w.calls[c].pc))
  }

  /** Unless a grant was lost, the row or the one unsaved grant carries the token the provider honours. */
  ghost predicate ProviderInSync(w: World) {
    && w.row.Some?
    && (GrantLost !in w.log ==>
          || w.provider == w.row.value.refresh
          || exists c :: c in w.calls && w.calls[c].pc.Saving? && w.calls[c].pc.grant.refresh == w.provider)
  }

  ghost predicate RowInv(w: World) {
    w.rules.guarded && w.rules.leased && SnapshotsFit(w) && HoldersFit(w) && ProviderInSync(w)
  }

  /** The history agrees with the row it led to. */
  ghost predicate HistoryFits(log: seq<Event>, row: Row) {
    && TurnsApart(log)
    && PresentedFromTheRow(log)
    && SpentNeverPresented(log)
    && NoLostRace(log)
    && (forall i | 0 <= i < |log| && log[i].TookTurn? :: log[i].ora <= row.updatedAt)
    && (forall i | 0 <= i < |log| && log[i].SavedGrant? :: log[i].spent < row.refresh)
  }

  ghost predicate TookIt(log: seq<Event>, c: CallId, token: Token) {
    exists i :: 0 <= i < |log| && log[i].TookTurn? && log[i].call == c && log[i].current == token
  }

  ghost predicate HistoryInv(w: World) {
    && w.row.Some?
    && HistoryFits(w.log, w.row.value)
    && (forall c | c in w.calls && w.calls[c].pc.Exchanging? :: TookIt(w.log, c, w.calls[c].pc.seen.refresh))
  }

  /** The heart of the lease: whoever wins the guarded update wins it when nobody holds the turn. */
  lemma WinnerFindsNoHolder(w: World, c: CallId, heard: bool)
    requires RowInv(w) && Timely(w, TURN_TTL_MS) && Ready(w, c, Commit(heard))
    requires GuardHolds(w.row, w.calls[c].pc.seen.updatedAt)
    ensures forall d | d in w.calls :: !Holding(w.calls[d].pc)
  {
    assert SnapshotFits(w.row.value, w.calls[c].pc) && HolderFits(w, w.calls[c].pc);
    forall d | d in w.calls
      ensures !Holding(w.calls[d].pc)
    {
      assert HolderFits(w, w.calls[d].pc);
    }
  }

  lemma SegmentKeepsSnapshots(w: World, c: CallId, a: Action)
    requires RowInv(w) && Ready(w, c, a) && OrderlyStep(w, Segment(c, a), true)
    ensures SnapshotsFit(Apply(w, Segment(c, a)))
  {
    var next := Apply(w, Segment(c, a));
    assert SnapshotFits(w.row.value, w.calls[c].pc) && HolderFits(w, w.calls[c].pc);
    forall d | d in next.calls
      ensures SnapshotFits(next.row.value, next.calls[d].pc)
    {
      assert d != c ==> SnapshotFits(w.row.value, w.calls[d].pc);
    }
  }

  lemma TakeKeepsHolders(w: World, c: CallId, heard: bool)
    requires RowInv(w) && Timely(w, TURN_TTL_MS) && Ready(w, c, Commit(heard))
    ensures HoldersFit(Apply(w, Segment(c, Commit(heard))))
  {
    var next := Apply(w, Segment(c, Commit(heard)));
    assert GrantLost in w.log ==> GrantLost in next.log;
    if GuardHolds(w.row, w.calls[c].pc.seen.updatedAt) {
      WinnerFindsNoHolder(w, c, heard);
    }
    assert SnapshotFits(w.row.value, w.calls[c].pc) && HolderFits(w, w.calls[c].pc);
    forall d | d in next.calls
      ensures HolderFits(next, next.calls[d].pc)
    {
      assert d != c ==> HolderFits(w, w.calls[d].pc);
    }
  }

  /** A holder's own segments concern no other holder, for there is none. */
  lemma HolderKeepsHolders(w: World, c: CallId, a: Action)
    requires RowInv(w) && Ready(w, c, a) && Holding(w.calls[c].pc)
    ensures HoldersFit(Apply(w, Segment(c, a)))
  {
    var next := Apply(w, Segment(c, a));
    assert GrantLost in w.log ==> GrantLost in next.log;
    assert HolderFits(w, w.calls[c].pc);
    assert HolderFits(next, next.calls[c].pc);
    forall d | d in next.calls && d != c
      ensures HolderFits(next, next.calls[d].pc) && !Holding(next.calls[d].pc)
    {
      assert HolderFits(w, w.calls[d].pc) && !Holding(w.calls[d].pc);
    }
  }

  /** What is common to the segments that neither take a turn nor hold one. */
  lemma BystandersLeaveTheRow(w: World, c: CallId, a: Action)
    requires Ready(w, c, a) && !a.Commit? && !Holding(w.calls[c].pc)
    ensures var e := EffectOf(w, c, a);
      && e.row == w.row && e.provider == w.provider && e.minted == w.minted
      && !Holding(e.pc) && (e.pc.Taking? ==> e.pc.ora <= w.now) && GrantLost !in e.events
  {
  }

  lemma BystanderKeepsHolders(w: World, c: CallId, e: Effect)
    requires RowInv(w) && c in w.calls
    requires e.row == w.row && e.provider == w.provider && e.minted == w.minted
    requires !Holding(e.pc) && (e.pc.Taking? ==> e.pc.ora <= w.now) && GrantLost !in e.events
    ensures HoldersFit(AfterSegment(w, c, e))
  {
    var next := AfterSegment(w, c, e);
    assert GrantLost in next.log <==> GrantLost in w.log;
    forall d | d in next.calls
      ensures HolderFits(next, next.calls[d].pc)
    {
      assert d != c ==> HolderFits(w, w.calls[d].pc);
    }
  }

  lemma SegmentKeepsProvider(w: World, c: CallId, a: Action)
    requires RowInv(w) && Ready(w, c, a)
    ensures ProviderInSync(Apply(w, Segment(c, a)))
  {
    var next := Apply(w, Segment(c, a));
    assert HolderFits(w, w.calls[c].pc);
    if GrantLost !in next.log {
      if w.provider != w.row.value.refresh && !a.Save? {
        var d :| d in w.calls && w.calls[d].pc.Saving? && w.calls[d].pc.grant.refresh == w.provider;
        assert d in next.calls && (d != c ==> next.calls[d] == w.calls[d]);
      }
      if a.Exchange? && a.reply.Granted? {
        assert next.calls[c].pc.grant.refresh == next.provider;
      }
    }
  }

  lemma CrashKeepsRow(w: World, home: Instance)
    requires RowInv(w)
    ensures RowInv(AfterCrash(w, home))
  {
    var next := AfterCrash(w, home);
    forall d | d in next.calls
      ensures SnapshotFits(next.row.value, next.calls[d].pc) && HolderFits(next, next.calls[d].pc)
    {
      assert SnapshotFits(w.row.value, w.calls[d].pc) && HolderFits(w, w.calls[d].pc);
    }
    if GrantLost !in next.log && w.provider != w.row.value.refresh {
      var d :| d in w.calls && w.calls[d].pc.Saving? && w.calls[d].pc.grant.refresh == w.provider;
      assert next.calls[d] == w.calls[d];
    }
  }

  lemma StepKeepsRow(w: World, s: Step)
    requires RowInv(w) && Timely(w, TURN_TTL_MS) && Enabled(w, s) && OrderlyStep(w, s, true)
    ensures RowInv(Apply(w, s))
  {
    match s
    case Segment(c, a) =>
      SegmentKeepsSnapshots(w, c, a);
      if a.Commit? {
        TakeKeepsHolders(w, c, a.heard);
      } else if Holding(w.calls[c].pc) {
        HolderKeepsHolders(w, c, a);
      } else {
        BystandersLeaveTheRow(w, c, a);
        BystanderKeepsHolders(w, c, EffectOf(w, c, a));
      }
      SegmentKeepsProvider(w, c, a);
    case Crash(home) => CrashKeepsRow(w, home);
    case Tick(_) =>
      forall c | c in w.calls ensures HolderFits(Apply(w, s), w.calls[c].pc) {
        assert HolderFits(w, w.calls[c].pc);
      }
    case Begin(c, _) =>
      var next := Apply(w, s);
      forall d | d in next.calls
        ensures SnapshotFits(next.row.value, next.calls[d].pc) && HolderFits(next, next.calls[d].pc)
      {
        assert d != c ==> SnapshotFits(w.row.value, w.calls[d].pc) && HolderFits(w, w.calls[d].pc);
      }
      if GrantLost !in w.log && w.provider != w.row.value.refresh {
        var d :| d in w.calls && w.calls[d].pc.Saving? && w.calls[d].pc.grant.refresh == w.provider;
        assert next.calls[d] == w.calls[d];
      }
  }

  /** What a segment may write into the history of the lease. */
  lemma EventsOfSegment(w: World, c: CallId, a: Action)
    requires RowInv(w) && Ready(w, c, a) && OrderlyStep(w, Segment(c, a), true)
    ensures var e, pc := EffectOf(w, c, a), w.calls[c].pc;
      && e.row.Some?
      && (a.Commit? && e.events != [] ==>
            && e.events == [TookTurn(c, w.row.value.updatedAt, e.row.value.updatedAt, w.row.value.refresh)]
            && e.row.value.updatedAt >= w.row.value.updatedAt + TURN_TTL_MS
            && e.row.value.refresh == w.row.value.refresh && (e.pc.Exchanging? ==> e.pc.seen.refresh == w.row.value.refresh))
      && (a.Exchange? ==>
            && pc.Exchanging? && pc.seen.refresh == w.row.value.refresh && e.row == w.row
            && (e.events == [Presented(c, pc.seen.refresh, w.provider, a.reply)]
                || e.events == [Presented(c, pc.seen.refresh, w.provider, a.reply), GrantLost])
            && (GrantLost !in w.log ==> pc.seen.refresh == w.provider))
      && (a.Save? ==>
            && e.events == [SavedGrant(c, pc.grant.access, w.row.value.refresh)]
            && e.row.value.refresh > w.row.value.refresh && e.row.value.updatedAt > w.row.value.updatedAt)
      && (!a.Save? && !(a.Commit? && e.events != []) ==> e.row == w.row)
      && (!a.Save? && !a.Exchange? && !(a.Commit? && e.events != []) ==>
            forall x | x in e.events :: !x.TookTurn? && !x.Presented? && !x.SavedGrant?)
      && (e.pc.Exchanging? ==> a.Commit? && e.events != [])
  {
    assert SnapshotFits(w.row.value, w.calls[c].pc) && HolderFits(w, w.calls[c].pc);
  }

  ghost predicate Quiet(e: Event) {
    !e.TookTurn? && !e.Presented? && !e.SavedGrant?
  }

  lemma FromTheRowGrows(log: seq<Event>, more: seq<Event>)
    requires PresentedFromTheRow(log)
    requires forall x | x in more :: x.Presented? ==> TookIt(log, x.call, x.refresh)
    ensures PresentedFromTheRow(log + more)
  {
    var all := log + more;
    forall j | 0 <= j < |all| && all[j].Presented?
      ensures exists i :: 0 <= i < j && all[i].TookTurn? && all[i].call == all[j].call && all[i].current == all[j].refresh
    {
      if j < |log| {
        var i :| 0 <= i < j && log[i].TookTurn? && log[i].call == log[j].call && log[i].current == log[j].refresh;
        assert all[i] == log[i];
      } else {
        assert all[j] in more;
        var i :| 0 <= i < |log| && log[i].TookTurn? && log[i].call == all[j].call && log[i].current == all[j].refresh;
        assert all[i] == log[i];
      }
    }
  }

  lemma NoLostRaceGrows(log: seq<Event>, more: seq<Event>)
    requires NoLostRace(log)
    requires forall x | x in more :: x.Presented? && GrantLost !in log ==> x.refresh == x.valid
    ensures NoLostRace(log + more)
  {
    var all := log + more;
    forall j | 0 <= j < |all| && all[j].Presented? && GrantLost !in all[..j]
      ensures all[j].refresh == all[j].valid
    {
      if j < |log| {
        assert all[..j] == log[..j];
      } else {
        assert all[j] in more;
        assert log <= all[..j];
        assert forall x :: x in log ==> x in all[..j];
      }
    }
  }

  lemma AppendQuiet(log: seq<Event>, events: seq<Event>, row: Row)
    requires HistoryFits(log, row) && forall x | x in events :: Quiet(x)
    ensures HistoryFits(log + events, row)
  {
    var all := log + events;
    forall i | |log| <= i < |all| ensures Quiet(all[i]) {
      assert all[i] in events;
    }
    FromTheRowGrows(log, events);
    NoLostRaceGrows(log, events);
  }

  lemma AppendTake(log: seq<Event>, c: CallId, row: Row, ora: int)
    requires HistoryFits(log, row) && ora >= row.updatedAt + TURN_TTL_MS
    ensures HistoryFits(log + [TookTurn(c, row.updatedAt, ora, row.refresh)], row.(updatedAt := ora))
  {
    FromTheRowGrows(log, [TookTurn(c, row.updatedAt, ora, row.refresh)]);
    NoLostRaceGrows(log, [TookTurn(c, row.updatedAt, ora, row.refresh)]);
  }

  lemma AppendPresented(log: seq<Event>, c: CallId, row: Row, valid: Token, reply: Reply)
    requires HistoryFits(log, row) && TookIt(log, c, row.refresh)
    requires GrantLost !in log ==> row.refresh == valid
    ensures HistoryFits(log + [Presented(c, row.refresh, valid, reply)], row)
  {
    FromTheRowGrows(log, [Presented(c, row.refresh, valid, reply)]);
    NoLostRaceGrows(log, [Presented(c, row.refresh, valid, reply)]);
  }

  lemma AppendSaved(log: seq<Event>, e: Event, row: Row, newer: Row)
    requires HistoryFits(log, row) && e.SavedGrant? && e.spent == row.refresh
    requires newer.refresh > row.refresh && newer.updatedAt > row.updatedAt
    ensures HistoryFits(log + [e], newer)
  {
    FromTheRowGrows(log, [e]);
    NoLostRaceGrows(log, [e]);
  }

  lemma StillTookIt(log: seq<Event>, events: seq<Event>, c: CallId, token: Token)
    requires TookIt(log, c, token)
    ensures TookIt(log + events, c, token)
  {
    var i :| 0 <= i < |log| && log[i].TookTurn? && log[i].call == c && log[i].current == token;
    assert (log + events)[i] == log[i];
  }

  lemma SegmentKeepsHistory(w: World, c: CallId, a: Action)
    requires RowInv(w) && HistoryInv(w) && Ready(w, c, a) && OrderlyStep(w, Segment(c, a), true)
    ensures HistoryInv(Apply(w, Segment(c, a)))
  {
    var e := EffectOf(w, c, a);
    var row := w.row.value;
    EventsOfSegment(w, c, a);
    if a.Commit? && e.events != [] {
      AppendTake(w.log, c, row, e.row.value.updatedAt);
      assert (w.log + e.events)[|w.log|] == e.events[0];
    } else if a.Exchange? {
      AppendPresented(w.log, c, row, w.provider, a.reply);
      if |e.events| == 2 {
        AppendQuiet(w.log + [e.events[0]], [GrantLost], row);
        assert w.log + e.events == w.log + [e.events[0]] + [GrantLost];
      }
    } else if a.Save? {
      AppendSaved(w.log, e.events[0], row, e.row.value);
      assert e.events == [e.events[0]];
    } else {
      AppendQuiet(w.log, e.events, row);
    }
    var next := Apply(w, Segment(c, a));
    forall d | d in next.calls && next.calls[d].pc.Exchanging?
      ensures TookIt(next.log, d, next.calls[d].pc.seen.refresh)
    {
      if d != c {
        StillTookIt(w.log, e.events, d, w.calls[d].pc.seen.refresh);
      }
    }
  }

  lemma StepKeepsHistory(w: World, s: Step)
    requires RowInv(w) && HistoryInv(w) && Enabled(w, s) && OrderlyStep(w, s, true)
    ensures HistoryInv(Apply(w, s))
  {
    match s
    case Segment(c, a) => SegmentKeepsHistory(w, c, a);
    case Crash(home) =>
      var next := AfterCrash(w, home);
      var more := next.log[|w.log|..];
      assert next.log == w.log + more;
      AppendQuiet(w.log, more, w.row.value);
      forall d | d in next.calls && next.calls[d].pc.Exchanging?
        ensures TookIt(next.log, d, next.calls[d].pc.seen.refresh)
      {
        StillTookIt(w.log, more, d, w.calls[d].pc.seen.refresh);
      }
    case Tick(_) =>
    case Begin(_, _) =>
  }

  lemma WinnersDiffer(log: seq<Event>)
    requires TurnsApart(log)
    ensures OneWinnerPerVersion(log)
  {
    forall i, j | 0 <= i < j < |log| && log[i].TookTurn? && log[j].TookTurn?
      ensures log[i].version != log[j].version
    {
    }
  }

  lemma {:induction false} LeaseInvariant(w: World, steps: seq<Step>, lease: nat)
    requires OrderlyRun(w, steps, true, lease) && lease <= 10_000
    requires RowInv(w) && HistoryInv(w)
    ensures Run(w, steps)
    ensures RowInv(Exec(w, steps)) && HistoryInv(Exec(w, steps))
    decreases |steps|
  {
    if steps != [] {
      StepKeepsRow(w, steps[0]);
      StepKeepsHistory(w, steps[0]);
      LeaseInvariant(Apply(w, steps[0]), steps[1..], lease);
    }
  }

  /**
   The lease over a whole run: whatever the interleaving, if every holder saves or
   gives up within the lease, saves move the version strictly on and nobody writes
   the row from outside, then critical sections exclude each other, takes are a
   lease apart, every holder presents the token of the row whose turn it took, and
   a token that was exchanged and saved is never presented again.
   */
  lemma LeaseHolds(w: World, steps: seq<Step>, lease: nat)
    requires Initial(w) && w.rules.guarded && w.rules.leased && OrderlyRun(w, steps, true, lease) && lease <= 10_000
    ensures Run(w, steps)
    ensures var end := Exec(w, steps);
      && ExclusiveHolder(end)
      && TurnsApart(end.log)
      && OneWinnerPerVersion(end.log)
      && PresentedFromTheRow(end.log)
      && SpentNeverPresented(end.log)
      && NoLostRace(end.log)
  {
    LeaseInvariant(w, steps, lease);
    WinnersDiffer(Exec(w, steps).log);
  }

  // --- Who loses and who wins -----------------------------------------------------

  /** The call has a read behind it that the row has moved on from, or no turn to look for any more. */
  ghost predicate Behind(w: World, c: CallId) {
    && c in w.calls
    && w.row.Some?
    && var pc := w.calls[c].pc;
       !pc.Reading? && !Holding(pc) && (HasSnapshot(pc) ==> Snapshot(pc).updatedAt < w.row.value.updatedAt)
  }

  lemma StepKeepsBehind(w: World, s: Step, c: CallId)
    requires RowInv(w) && Behind(w, c) && Enabled(w, s) && OrderlyStep(w, s, true)
    ensures Behind(Apply(w, s), c)
  {
    if s.Segment? {
      EventsOfSegment(w, s.call, s.action);
    }
  }

  /** A reader whose row has gone stale never holds a turn through that read. */
  lemma {:induction false} StaleReaderNeverHolds(w: World, steps: seq<Step>, lease: nat, c: CallId)
    requires OrderlyRun(w, steps, true, lease) && lease <= 10_000
    requires RowInv(w) && Behind(w, c)
    ensures Run(w, steps)
    ensures c in Exec(w, steps).calls && !Holding(Exec(w, steps).calls[c].pc)
    decreases |steps|
  {
    if steps != [] {
      StepKeepsBehind(w, steps[0], c);
      StepKeepsRow(w, steps[0]);
      StaleReaderNeverHolds(Apply(w, steps[0]), steps[1..], lease, c);
    }
  }

  /** From the start of a run on: once a call is behind the row, it never holds a turn through what it read. */
  lemma StaleReaderInAnyRun(w: World, before: seq<Step>, after: seq<Step>, lease: nat, c: CallId)
    requires Initial(w) && w.rules.guarded && w.rules.leased && OrderlyRun(w, before, true, lease) && lease <= 10_000
    requires Run(w, before) && Behind(Exec(w, before), c)
    requires OrderlyRun(Exec(w, before), after, true, lease)
    ensures Run(Exec(w, before), after)
    ensures var end := Exec(Exec(w, before), after); c in end.calls && !Holding(end.calls[c].pc)
  {
    LeaseInvariant(w, before, lease);
    StaleReaderNeverHolds(Exec(w, before), after, lease, c);
  }
}
