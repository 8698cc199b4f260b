/**
 Callbacks of the billing page, purchases, the outbox and Shopify's notices, interleaved
 in any order. A callback is three steps (it reads the shop, it hears Shopify and reads
 the attempt, it commits), and what it answers rests on what it read, which may be stale.
 */
module BillingRuns {
  import opened Options
  import opened Billing
  import Decimal
  import Text

  type CallId = nat

  // --- The callback, the other writers, and their interleavings -----------------------

  /** A return address: whether it carries a state, what the state proves to say, shop and charge number. */
  datatype Request = Request(signed: bool, state: Option<AttemptState>, shop: ShopId, raw: ChargeText)

  datatype Standing = StandsDeclined | StandsCancelled | StandsExpired | StandsFrozen | StandsOtherwise

  /** What Shopify answers about the subscription, and which listed plan it turns out to be. */
  datatype Reply = Unreachable | Unknown | Ended(standing: Standing) | Subscribed(sub: Subscription, plan: Option<Plan>)

  datatype Outcome = Ok(firstPlan: bool) | Ko

  /** What becomes of the transaction: its reply arrives, it is carried out unheard, or it is not carried out. */
  datatype Fate = Heeded | Lost | Failed

  datatype Phase =
    | Arrived(request: Request, shopSeen: Shop)
    | Checked(request: Request, shopSeen: Shop, attemptSeen: Charge, sub: Subscription, plan: Plan, interval: Interval)
    | Answered(outcome: Outcome)
    | Leaving(shop: ShopId, seen: Option<string>, plan: Plan)
    | Draining(ids: set<ChargeId>)
    // a notice: the shop is moved first, then the row of the charge is marked
    | Aligning(shop: ShopId, charge: ChargeId)
    | Marking(shop: ShopId, charge: ChargeId)
    | Retiring(shop: ShopId, charge: ChargeId)
    | Closing(shop: ShopId, charge: ChargeId)
    | Over

  /** Everything that moves a shop to a plan; a purchase with what Shopify declared and what the state said. */
  datatype PlanChange =
    | Paid(caller: CallId, purchase: Purchase, sub: Subscription, state: AttemptState)
    | Unpaid(shop: ShopId, charge: Option<string>, plan: Plan, trialDays: int, at: int)

  datatype World = World(rows: Rows, calls: map<CallId, Phase>, log: seq<PlanChange>)

  datatype Action =
    // the callback: it reads the shop, hears Shopify and reads the attempt, then commits
    | Arrive(i: CallId, request: Request)
    | Hear(i: CallId, reply: Reply, now: int)
    | Commit(i: CallId, now: int, fate: Fate)
    // the purchase page: opens an attempt, or reads the shop and moves it to the free plan
    | Subscribe(id: ChargeId, s: ShopId, nonce: Nonce, price: Amount, currency: Currency, plan: Plan, cycle: Interval, days: int)
    | Leave(i: CallId, s: ShopId, plan: Plan)
    | CommitLeave(i: CallId, now: int)
    // the outbox: lists what is superseded, closes one by one, takes in unknown subscriptions
    | Drain(i: CallId, s: ShopId)
    | Close(i: CallId, id: ChargeId, now: int)
    | Enqueue(s: ShopId, id: ChargeId, plan: Plan)
    | Supersede(s: ShopId, id: ChargeId)
    // Shopify says that a charge is active: the shop is read, moved, and the row marked
    | Notice(i: CallId, s: ShopId, id: ChargeId)
    | Align(i: CallId, plan: Plan, days: int, now: int)
    | MarkActive(i: CallId, now: int)
    // Shopify says that a charge has ended, or lists none as active: the same the other way
    | NoticeEnd(i: CallId, s: ShopId, id: ChargeId)
    | Reconcile(i: CallId, s: ShopId)
    | Retire(i: CallId, plan: Plan, now: int)
    | MarkEnded(i: CallId, now: int)

  predicate Enabled(w: World, a: Action) {
    match a
    case Arrive(i, request) => i !in w.calls && (request.state.Some? ==> request.signed)
    case Hear(i, _, _) => i in w.calls && w.calls[i].Arrived?
    case Commit(i, _, _) => i in w.calls && w.calls[i].Checked?
    case Subscribe(_, s, _, _, _, _, _, _) => s in w.rows.shops
    case Leave(i, s, plan) => i !in w.calls && s in w.rows.shops && MayLeave(w.rows.shops[s], plan)
    case CommitLeave(i, _) => i in w.calls && w.calls[i].Leaving?
    case Drain(i, s) => i !in w.calls && s in w.rows.shops
    case Close(i, id, _) => i in w.calls && w.calls[i].Draining? && id in w.calls[i].ids
    case Enqueue(s, _, _) => s in w.rows.shops
    case Supersede(s, _) => s in w.rows.shops
    case Notice(i, s, _) => i !in w.calls && s in w.rows.shops
    case Align(i, _, _, _) => i in w.calls && w.calls[i].Aligning?
    case MarkActive(i, _) => i in w.calls && w.calls[i].Marking?
    case NoticeEnd(i, s, _) => i !in w.calls && s in w.rows.shops
    case Reconcile(i, s) => i !in w.calls && s in w.rows.shops
    case Retire(i, _, _) => i in w.calls && w.calls[i].Retiring?
    case MarkEnded(i, _) => i in w.calls && w.calls[i].Closing?
  }

  /** The purchase page turns away a blocked shop and the plan it is already on. */
  predicate MayLeave(shop: Shop, plan: Plan) {
    !shop.authorization.Disabled? && shop.currentPlan != plan
  }

  /** `chargeStatusFor`. */
  function StatusFor(standing: Standing): Option<Status> {
    match standing
    case StandsDeclined => Some(Declined)
    case StandsCancelled | StandsExpired | StandsFrozen => Some(Cancelled)
    case StandsOtherwise => None
  }

  function IntervalFor(sub: Subscription, state: Option<AttemptState>, attempt: Option<Charge>): Interval {
    if sub.interval.Some? then sub.interval.value
    else if state.Some? then state.value.interval
    else if attempt.Some? && attempt.value.cycle.Some? && !attempt.value.cycle.value.OtherCycle?
    then attempt.value.cycle.value
    else Monthly
  }

  predicate AlreadyApplied(shop: Shop, attempt: Option<Charge>, raw: string, plan: Plan, interval: Interval) {
    && shop.activeCharge == Some(raw)
    && shop.currentPlan == plan
    && shop.cycle.GetOr(Monthly) == interval
    && attempt.Some? && attempt.value.status.Active?
  }

  function ReplayAnswer(shop: Shop, attempt: Option<Charge>, raw: string, plan: Plan, interval: Interval): Outcome {
    if AlreadyApplied(shop, attempt, raw, plan, interval) then Ok(!shop.setupDone) else Ko
  }

  function AttemptRow(r: Rows, request: Request): Option<Charge> {
    var id := Decimal.Value(request.raw);
    if id in r.charges && r.charges[id].shop == request.shop then Some(r.charges[id]) else None
  }

  /** A call in a state only a callback reaches carries a well-formed request. */
  predicate WellFormed(w: World) {
    && (forall i | i in w.calls && w.calls[i].Arrived? :: w.calls[i].request.shop in w.rows.shops)
    && (forall i | i in w.calls && w.calls[i].Checked? :: w.calls[i].request.state.Some?)
    && (forall i | i in w.calls && (w.calls[i].Leaving? || w.calls[i].Aligning? || w.calls[i].Retiring?) ::
         w.calls[i].shop in w.rows.shops)
  }

  /** `applyActiveSubscription` does nothing for the charge the shop is already on. */
  function Noticed(shop: Shop, s: ShopId, id: ChargeId): Phase {
    if shop.activeCharge == Some(Decimal.Numeral(id)) then Over else Aligning(s, id)
  }

  /** The end of a charge is of interest only when it is the one the shop is on. */
  function NoticedEnd(shop: Shop, s: ShopId, id: ChargeId): Phase {
    if shop.activeCharge == Some(Decimal.Numeral(id)) then Retiring(s, id) else Over
  }

  /** With nothing active at Shopify, whatever charge the shop is on has ended. */
  function Reconciled(shop: Shop, s: ShopId): Phase {
    if Numeric(shop.activeCharge).Some? then Retiring(s, Numeric(shop.activeCharge).value) else Over
  }

  function Planned(w: World, s: ShopId, charge: Option<string>, plan: Plan, days: int, now: int, i: CallId, next: Phase): World
    requires s in w.rows.shops
  {
    World(w.rows.(shops := w.rows.shops[s := OnPlan(w.rows.shops[s], plan, charge, days, Monthly, None, now)]),
          w.calls[i := next], w.log + [Unpaid(s, charge, plan, days, now)])
  }

  function MarkedActive(charges: map<ChargeId, Charge>, s: ShopId, id: ChargeId, now: int): map<ChargeId, Charge> {
    if id in charges && charges[id].shop == s
    then charges[id := charges[id].(status := Active, activatedAt := Some(now))] else charges
  }

  /** What a callback does once it has Shopify's answer. */
  function Heard(w: World, i: CallId, reply: Reply, now: int): (next: World)
    requires Enabled(w, Hear(i, reply, now))
    ensures WellFormed(w) ==> WellFormed(next)
  {
    var request := w.calls[i].request;
    match reply
    case Unreachable => w.(calls := w.calls[i := Answered(Ko)])
    case Unknown => w.(calls := w.calls[i := Answered(Ko)])
    case Ended(standing) =>
      var status := StatusFor(standing);
      w.(calls := w.calls[i := Answered(Ko)],
         rows := if status.None? then w.rows else
           w.rows.(charges := WithStatus(w.rows.charges, request.shop, Decimal.Value(request.raw), status.value, now)))
    case Subscribed(sub, plan) =>
      if plan.None? then w.(calls := w.calls[i := Answered(Ko)])
      else
        var shop, attempt := w.calls[i].shopSeen, AttemptRow(w.rows, request);
        var interval := IntervalFor(sub, request.state, attempt);
        w.(calls := w.calls[i :=
          if Recognised(request.state, attempt, sub, plan.value, request.shop)
          then Checked(request, shop, attempt.value, sub, plan.value, interval)
          else Answered(ReplayAnswer(shop, attempt, request.raw, plan.value, interval))])
  }

  function PurchaseOf(c: Phase, now: int): Purchase
    requires c.Checked? && c.request.state.Some?
  {
    Purchase(c.request.shop, c.request.raw, c.request.state.value.nonce, c.plan, c.sub.trialDays.GetOr(0), c.interval, now)
  }

  function Payment(i: CallId, c: Phase, now: int): PlanChange
    requires c.Checked? && c.request.state.Some?
  {
    Paid(i, PurchaseOf(c, now), c.sub, c.request.state.value)
  }

  /** The commit, and the answer: ko for whoever hears nothing of the transaction. */
  function Committed(w: World, i: CallId, now: int, fate: Fate): (next: World)
    requires Enabled(w, Commit(i, now, fate)) && w.calls[i].request.state.Some?
    ensures WellFormed(w) ==> WellFormed(next)
  {
    var c := w.calls[i];
    var p := PurchaseOf(c, now);
    if fate.Failed? then w.(calls := w.calls[i := Answered(Ko)])
    else if CanSpend(w.rows, p)
    then World(Bought(w.rows, p), w.calls[i := Answered(if fate.Heeded? then Ok(!c.shopSeen.setupDone) else Ko)], w.log + [Payment(i, c, now)])
    else w.(calls := w.calls[i := Answered(
      if fate.Heeded? then ReplayAnswer(c.shopSeen, Some(c.attemptSeen), c.request.raw, c.plan, c.interval) else Ko)])
  }

  function Superseding(charges: map<ChargeId, Charge>, s: ShopId, id: ChargeId): map<ChargeId, Charge> {
    if id in charges && charges[id].shop == s && Live(charges[id])
    then charges[id := charges[id].(status := Superseded)] else charges
  }

  predicate IsNotice(a: Action) {
    a.Notice? || a.Align? || a.MarkActive? || a.NoticeEnd? || a.Reconcile? || a.Retire? || a.MarkEnded?
  }

  /** The steps of a notice. */
  function AfterNotice(w: World, a: Action): (next: World)
    requires Enabled(w, a) && WellFormed(w) && IsNotice(a)
    ensures WellFormed(next)
  {
    var charges := w.rows.charges;
    match a
    case Notice(i, s, id) => w.(calls := w.calls[i := Noticed(w.rows.shops[s], s, id)])
    case Align(i, plan, days, now) =>
      var c := w.calls[i];
      Planned(w, c.shop, Some(Decimal.Numeral(c.charge)), plan, days, now, i, Marking(c.shop, c.charge))
    case MarkActive(i, now) =>
      var c := w.calls[i];
      World(w.rows.(charges := MarkedActive(charges, c.shop, c.charge, now)), w.calls[i := Over], w.log)
    case NoticeEnd(i, s, id) => w.(calls := w.calls[i := NoticedEnd(w.rows.shops[s], s, id)])
    case Reconcile(i, s) => w.(calls := w.calls[i := Reconciled(w.rows.shops[s], s)])
    case Retire(i, plan, now) =>
      var c := w.calls[i];
      Planned(w, c.shop, None, plan, 0, now, i, Closing(c.shop, c.charge))
    case MarkEnded(i, now) =>
      var c := w.calls[i];
      World(w.rows.(charges := WithStatus(charges, c.shop, c.charge, Cancelled, now)), w.calls[i := Over], w.log)
  }

  function Apply(w: World, a: Action): (next: World)
    requires Enabled(w, a) && WellFormed(w)
    ensures WellFormed(next)
  {
    var charges := w.rows.charges;
    match a
    case Arrive(i, request) =>
      w.(calls := w.calls[i := if request.shop in w.rows.shops then Arrived(request, w.rows.shops[request.shop]) else Answered(Ko)])
    case Hear(i, reply, now) => Heard(w, i, reply, now)
    case Commit(i, now, fate) => Committed(w, i, now, fate)
    case Subscribe(id, s, nonce, price, currency, plan, cycle, days) =>
      w.(rows := Opened(w.rows, id, NewCharge(s, nonce, plan, price, currency, cycle, days)))
    case Leave(i, s, plan) => w.(calls := w.calls[i := Leaving(s, w.rows.shops[s].activeCharge, plan)])
    case CommitLeave(i, now) =>
      var c := w.calls[i];
      World(LeftForFree(w.rows, c.shop, c.seen, c.plan, now), w.calls[i := Over], w.log + [Unpaid(c.shop, None, c.plan, 0, now)])
    case Drain(i, s) =>
      w.(calls := w.calls[i := Draining(set id | id in charges && charges[id].shop == s && charges[id].status.Superseded?)])
    case Close(i, id, now) =>
      if id in charges then w.(rows := w.rows.(charges := charges[id := charges[id].(status := Cancelled, cancelledAt := Some(now))]))
      else w
    case Enqueue(s, id, plan) =>
      if id in charges then w
      else w.(rows := w.rows.(charges := charges[id := Charge(s, plan, None, None, None, Superseded, 7, None, None, None, None, None)]))
    case Supersede(s, id) => w.(rows := w.rows.(charges := Superseding(charges, s, id)))
    case _ => AfterNotice(w, a)
  }

  predicate Run(w: World, steps: seq<Action>)
    decreases |steps|
  {
    WellFormed(w) && (steps == [] || (Enabled(w, steps[0]) && Run(Apply(w, steps[0]), steps[1..])))
  }

  function Exec(w: World, steps: seq<Action>): (end: World)
    requires Run(w, steps)
    ensures WellFormed(end)
    decreases |steps|
  {
    if steps == [] then w else Exec(Apply(w, steps[0]), steps[1..])
  }

  // --- Attempts only move forward ------------------------------------------------------

  /** A row keeps what it was opened with, never comes back to pending and never forgets a spent nonce. */
  ghost predicate Later(c: Charge, d: Charge) {
    && d.shop == c.shop && d.plan == c.plan && d.price == c.price && d.currency == c.currency && d.nonce == c.nonce
    && (!c.status.Pending? ==> !d.status.Pending?)
    && (c.nonceUsedAt.Some? ==> d.nonceUsedAt == c.nonceUsedAt)
  }

  ghost predicate Forward(before: map<ChargeId, Charge>, after: map<ChargeId, Charge>) {
    forall id | id in before :: id in after && Later(before[id], after[id])
  }

  lemma WithStatusMovesForward(charges: map<ChargeId, Charge>, s: ShopId, id: ChargeId, status: Status, now: int)
    requires !status.Pending?
    ensures Forward(charges, WithStatus(charges, s, id, status, now))
  {
  }

  lemma HeardMovesForward(w: World, i: CallId, reply: Reply, now: int)
    requires WellFormed(w) && Enabled(w, Hear(i, reply, now))
    ensures Forward(w.rows.charges, Heard(w, i, reply, now).rows.charges)
  {
    hide Recognised, IntervalFor, ReplayAnswer, AttemptRow, WithStatus;
    if reply.Ended? && StatusFor(reply.standing).Some? {
      var request := w.calls[i].request;
      WithStatusMovesForward(
        w.rows.charges, request.shop, Decimal.Value(request.raw), StatusFor(reply.standing).value, now);
    }
  }

  lemma CommittedMovesForward(w: World, i: CallId, now: int, fate: Fate)
    requires WellFormed(w) && Enabled(w, Commit(i, now, fate))
    ensures Forward(w.rows.charges, Committed(w, i, now, fate).rows.charges)
  {
    hide OnPlan, ReplayAnswer, TrialEnd;
  }

  lemma LeftMovesForward(r: Rows, s: ShopId, seen: Option<string>, plan: Plan, now: int)
    requires s in r.shops
    ensures Forward(r.charges, LeftForFree(r, s, seen, plan, now).charges)
  {
    hide OnPlan, WithStatus, Numeric;
    if Numeric(seen).Some? {
      WithStatusMovesForward(r.charges, s, Numeric(seen).value, Cancelled, now);
    }
  }

  lemma StepMovesForward(w: World, a: Action)
    requires WellFormed(w) && Enabled(w, a)
    ensures Forward(w.rows.charges, Apply(w, a).rows.charges)
  {
    hide Heard, Committed, LeftForFree, WithStatus, OnPlan, NonceTaken;
    match a {
      case Hear(i, reply, now) => HeardMovesForward(w, i, reply, now);
      case Commit(i, now, fate) => CommittedMovesForward(w, i, now, fate);
      case CommitLeave(i, now) => LeftMovesForward(w.rows, w.calls[i].shop, w.calls[i].seen, w.calls[i].plan, now);
      case MarkEnded(i, now) => WithStatusMovesForward(w.rows.charges, w.calls[i].shop, w.calls[i].charge, Cancelled, now);
      case _ =>
    }
  }

  /** No status returns to pending and no nonce is unspent, whatever runs beside. */
  lemma {:induction false} NeverPendingAgain(w: World, steps: seq<Action>)
    requires Run(w, steps)
    ensures Forward(w.rows.charges, Exec(w, steps).rows.charges)
    decreases |steps|
  {
    if steps != [] {
      StepMovesForward(w, steps[0]);
      NeverPendingAgain(Apply(w, steps[0]), steps[1..]);
    }
  }

  // --- Each attempt is spent at most once --------------------------------------------------

  ghost predicate NoncesUnique(charges: map<ChargeId, Charge>) {
    forall a, b | a in charges && b in charges && charges[a].nonce.Some? && charges[a].nonce == charges[b].nonce :: a == b
  }

  /** A purchase in the log left its mark: the row is spent, at that time, and its caller is done. */
  ghost predicate Proven(w: World, caller: CallId, p: Purchase) {
    && caller in w.calls && w.calls[caller].Answered?
    && var id := Decimal.Value(p.raw);
    && id in w.rows.charges
    && w.rows.charges[id].shop == p.shop && w.rows.charges[id].nonce == Some(p.nonce)
    && w.rows.charges[id].nonceUsedAt == Some(p.at) && !w.rows.charges[id].status.Pending?
  }

  /** A purchase is what Shopify declared of the subscription, and what the state said where it kept silent. */
  ghost predicate Declared(e: PlanChange) {
    e.Paid? ==>
      && e.purchase.interval == (if e.sub.interval.Some? then e.sub.interval.value else e.state.interval)
      && e.purchase.trialDays == (if e.sub.trialDays.Some? then e.sub.trialDays.value else 0)
      && e.purchase.plan == e.state.plan && e.purchase.shop == e.state.shop && e.purchase.nonce == e.state.nonce
  }

  ghost predicate LogDeclared(log: seq<PlanChange>) {
    forall k | 0 <= k < |log| :: Declared(log[k])
  }

  ghost predicate LogProven(w: World) {
    forall k | 0 <= k < |w.log| && w.log[k].Paid? :: Proven(w, w.log[k].caller, w.log[k].purchase)
  }

  /** Two purchases: different callbacks, different charges, different nonces. */
  ghost predicate Apart(a: PlanChange, b: PlanChange) {
    a.Paid? && b.Paid? ==>
      && a.caller != b.caller
      && Decimal.Value(a.purchase.raw) != Decimal.Value(b.purchase.raw)
      && a.purchase.nonce != b.purchase.nonce
  }

  ghost predicate OncePerCharge(log: seq<PlanChange>) {
    forall j, k | 0 <= j < k < |log| :: Apart(log[j], log[k])
  }

  /** What a callback about to commit has read: an earlier version of the row, which it recognised. */
  ghost predicate ReadFits(w: World, c: Phase) {
    c.Checked? ==>
      && c.request.state.Some? && c.request.shop in w.rows.shops
      && Decimal.Value(c.request.raw) in w.rows.charges
      && Later(c.attemptSeen, w.rows.charges[Decimal.Value(c.request.raw)])
      && c.attemptSeen.shop == c.request.shop
      && Recognised(c.request.state, Some(c.attemptSeen), c.sub, c.plan, c.request.shop)
      && c.interval == IntervalFor(c.sub, c.request.state, Some(c.attemptSeen))
  }

  ghost predicate ReadsFit(w: World) {
    forall i | i in w.calls :: ReadFits(w, w.calls[i])
  }

  ghost predicate LedgerInv(w: World) {
    NoncesUnique(w.rows.charges) && LogProven(w) && OncePerCharge(w.log) && LogDeclared(w.log) && ReadsFit(w)
  }

  lemma SameRowsKeepNonces(before: map<ChargeId, Charge>, after: map<ChargeId, Charge>)
    requires NoncesUnique(before) && Forward(before, after) && after.Keys == before.Keys
    ensures NoncesUnique(after)
  {
  }

  lemma StepKeepsNonces(w: World, a: Action)
    requires WellFormed(w) && Enabled(w, a) && NoncesUnique(w.rows.charges)
    ensures NoncesUnique(Apply(w, a).rows.charges)
  {
    StepMovesForward(w, a);
    hide Later, Forward, Recognised, IntervalFor, ReplayAnswer, OnPlan, TrialEnd, Numeric, NonceTaken, CanSpend;
    if a.Subscribe? {
      hide Opened;
    } else if a.Enqueue? {
    } else {
      hide NoncesUnique;
      SameRowsKeepNonces(w.rows.charges, Apply(w, a).rows.charges);
    }
  }

  /** The log grows by at most the purchase of the callback that commits, or by one change of another kind. */
  lemma LogGrows(w: World, a: Action)
    requires WellFormed(w) && Enabled(w, a)
    ensures Apply(w, a).log == w.log
      || (|Apply(w, a).log| == |w.log| + 1 && Apply(w, a).log[..|w.log|] == w.log && Apply(w, a).log[|w.log|].Unpaid?)
      || (a.Commit? && !a.fate.Failed? && CanSpend(w.rows, PurchaseOf(w.calls[a.i], a.now))
          && Apply(w, a).log == w.log + [Payment(a.i, w.calls[a.i], a.now)])
  {
    hide Bought, CanSpend, LeftForFree, Opened, WithStatus, OnPlan, Recognised, ReplayAnswer, IntervalFor, Superseding;
  }

  lemma StaysProven(w: World, a: Action, caller: CallId, p: Purchase)
    requires WellFormed(w) && Enabled(w, a) && Proven(w, caller, p)
    ensures Proven(Apply(w, a), caller, p)
  {
    StepMovesForward(w, a);
    hide Apply;
  }

  lemma NewPurchaseIsApart(w: World, i: CallId, now: int, k: nat)
    requires WellFormed(w) && LedgerInv(w) && k < |w.log|
    requires i in w.calls && w.calls[i].Checked? && CanSpend(w.rows, PurchaseOf(w.calls[i], now))
    ensures Apart(w.log[k], Payment(i, w.calls[i], now))
  {
    if w.log[k].Paid? {
      assert Proven(w, w.log[k].caller, w.log[k].purchase);
    }
  }

  lemma StepKeepsLog(w: World, a: Action)
    requires WellFormed(w) && Enabled(w, a) && LedgerInv(w)
    ensures LogProven(Apply(w, a)) && OncePerCharge(Apply(w, a).log)
  {
    var next := Apply(w, a);
    LogGrows(w, a);
    hide Apply, WellFormed, CanSpend, NoncesUnique, ReadsFit, PurchaseOf;
    forall k | 0 <= k < |next.log| && next.log[k].Paid? ensures Proven(next, next.log[k].caller, next.log[k].purchase) {
      if k < |w.log| {
        assert next.log[k] == w.log[k] by { assert next.log[..|w.log|] == w.log; }
        StaysProven(w, a, w.log[k].caller, w.log[k].purchase);
      }
    }
    forall j, k | 0 <= j < k < |next.log| ensures Apart(next.log[j], next.log[k]) {
      assert next.log[j] == w.log[j] by { assert next.log[..|w.log|] == w.log; }
      if k < |w.log| {
        assert next.log[k] == w.log[k] by { assert next.log[..|w.log|] == w.log; }
      } else if next.log[k].Paid? {
        NewPurchaseIsApart(w, a.i, a.now, j);
      }
    }
  }

  lemma StepKeepsDeclared(w: World, a: Action)
    requires WellFormed(w) && Enabled(w, a) && LogDeclared(w.log) && ReadsFit(w)
    ensures LogDeclared(Apply(w, a).log)
  {
    var next := Apply(w, a);
    LogGrows(w, a);
    if a.Commit? {
      assert ReadFits(w, w.calls[a.i]);
      NewPaymentIsDeclared(w, a.i, a.now);
    }
    hide Apply, ReadsFit, Declared, Payment, CanSpend;
    forall k | 0 <= k < |next.log| ensures Declared(next.log[k]) {
      if k < |w.log| {
        assert next.log[k] == w.log[k] by { assert next.log[..|w.log|] == w.log; }
      } else if next.log[k].Unpaid? {
        UnpaidIsDeclared(next.log[k]);
      }
    }
  }

  lemma UnpaidIsDeclared(e: PlanChange)
    ensures e.Unpaid? ==> Declared(e)
  {
  }

  lemma NewPaymentIsDeclared(w: World, i: CallId, now: int)
    requires i in w.calls && w.calls[i].Checked? && ReadFits(w, w.calls[i])
    ensures Declared(Payment(i, w.calls[i], now))
  {
  }

  lemma StepKeepsReads(w: World, a: Action)
    requires WellFormed(w) && Enabled(w, a) && ReadsFit(w)
    ensures ReadsFit(Apply(w, a))
  {
    var next := Apply(w, a);
    StepMovesForward(w, a);
    forall i | i in next.calls ensures ReadFits(next, next.calls[i]) {
      if i in w.calls && w.calls[i] == next.calls[i] {
        ReadStillFits(w, a, i);
      } else {
        NewReadFits(w, a, i);
      }
    }
  }

  lemma ReadStillFits(w: World, a: Action, i: CallId)
    requires WellFormed(w) && Enabled(w, a) && i in w.calls && ReadFits(w, w.calls[i])
    ensures ReadFits(Apply(w, a), w.calls[i])
  {
    StepMovesForward(w, a);
    ShopsRemain(w, a);
    hide Apply, Recognised;
  }

  lemma ShopsRemain(w: World, a: Action)
    requires WellFormed(w) && Enabled(w, a)
    ensures Apply(w, a).rows.shops.Keys == w.rows.shops.Keys
  {
    hide WithStatus, NonceTaken, OnPlan, Recognised, ReplayAnswer, IntervalFor, Superseding;
  }

  lemma NewReadFits(w: World, a: Action, i: CallId)
    requires WellFormed(w) && Enabled(w, a) && i in Apply(w, a).calls
    requires i !in w.calls || w.calls[i] != Apply(w, a).calls[i]
    ensures ReadFits(Apply(w, a), Apply(w, a).calls[i])
  {
    hide Bought, CanSpend, LeftForFree, Opened, WithStatus, OnPlan, StateAgrees, AttemptAgrees, ReplayAnswer, IntervalFor, Superseding;
  }

  lemma {:induction false} LedgerInvariant(w: World, steps: seq<Action>)
    requires Run(w, steps) && LedgerInv(w)
    ensures LedgerInv(Exec(w, steps))
    decreases |steps|
  {
    hide LogProven, LogDeclared, OncePerCharge, ReadsFit, NoncesUnique, Apply, Enabled;
    if steps != [] {
      StepKeepsDeclared(w, steps[0]);
      StepKeepsNonces(w, steps[0]);
      StepKeepsLog(w, steps[0]);
      StepKeepsReads(w, steps[0]);
      LedgerInvariant(Apply(w, steps[0]), steps[1..]);
    }
  }

  // --- The plan of a shop is the fold of its log ----------------------------------------------

  function ShopOf(e: PlanChange): ShopId {
    match e
    case Paid(_, p, _, _) => p.shop
    case Unpaid(s, _, _, _, _) => s
  }

  function Moved(shop: Shop, e: PlanChange): Shop {
    match e
    case Paid(_, p, _, _) => OnPlan(shop, p.plan, Some(p.raw), p.trialDays, p.interval, Some(p.at), p.at)
    case Unpaid(_, charge, plan, trialDays, at) => OnPlan(shop, plan, charge, trialDays, Monthly, None, at)
  }

  function History(shop: Shop, s: ShopId, log: seq<PlanChange>): Shop
    decreases |log|
  {
    if log == [] then shop
    else History(if ShopOf(log[0]) == s then Moved(shop, log[0]) else shop, s, log[1..])
  }

  lemma {:induction false} HistoryAppends(shop: Shop, s: ShopId, log: seq<PlanChange>, more: seq<PlanChange>)
    ensures History(shop, s, log + more) == History(History(shop, s, log), s, more)
    decreases |log|
  {
    if log == [] {
      assert log + more == more;
    } else {
      assert (log + more)[1..] == log[1..] + more;
      HistoryAppends(if ShopOf(log[0]) == s then Moved(shop, log[0]) else shop, s, log[1..], more);
    }
  }

  /** What a step adds to the log. */
  function Added(w: World, a: Action): (more: seq<PlanChange>)
    requires WellFormed(w) && Enabled(w, a)
    ensures Apply(w, a).log == w.log + more
  {
    LogGrows(w, a);
    Apply(w, a).log[|w.log|..]
  }

  lemma StepFollowsLog(w: World, a: Action, s: ShopId)
    requires WellFormed(w) && Enabled(w, a) && s in w.rows.shops
    ensures s in Apply(w, a).rows.shops
    ensures Apply(w, a).rows.shops[s] == History(w.rows.shops[s], s, Added(w, a))
  {
    hide WithStatus, NonceTaken, OnPlan, Recognised, ReplayAnswer, IntervalFor, Superseding;
    var more := Added(w, a);
    if |more| == 1 {
      assert more[1..] == [];
    }
  }

  /** Whatever runs, a shop's plan, trial and dates are those of the changes the log holds for it. */
  lemma {:induction false} PlansFollowTheLog(w: World, steps: seq<Action>, s: ShopId) returns (more: seq<PlanChange>)
    requires Run(w, steps) && s in w.rows.shops
    ensures Exec(w, steps).log == w.log + more
    ensures s in Exec(w, steps).rows.shops
    ensures Exec(w, steps).rows.shops[s] == History(w.rows.shops[s], s, more)
    decreases |steps|
  {
    hide Apply, Enabled, WellFormed, Added, OnPlan, Moved, ShopOf;
    if steps == [] {
      more := [];
    } else {
      var one := Added(w, steps[0]);
      StepFollowsLog(w, steps[0], s);
      var rest := PlansFollowTheLog(Apply(w, steps[0]), steps[1..], s);
      HistoryAppends(w.rows.shops[s], s, one, rest);
      hide History;
      more := one + rest;
      assert w.log + (one + rest) == (w.log + one) + rest;
    }
  }

  /** The start: nobody has called yet. */
  ghost predicate Initial(w: World) {
    w.calls == map[] && w.log == [] && NoncesUnique(w.rows.charges)
  }

  /**
   Over every interleaving from the start: each purchase has its own callback, charge and
   nonce and is what Shopify declared to it, the row it spent stays spent, and the shop is
   where the log puts it. A callback
   that does not win adds nothing to the log, so it moves no plan, no trial and no date.
   */
  lemma EachAttemptIsSpentOnce(w: World, steps: seq<Action>, s: ShopId)
    requires Initial(w) && Run(w, steps) && s in w.rows.shops
    ensures var end := Exec(w, steps);
      OncePerCharge(end.log) && LogProven(end) && LogDeclared(end.log) && Forward(w.rows.charges, end.rows.charges)
      && s in end.rows.shops && end.rows.shops[s] == History(w.rows.shops[s], s, end.log)
  {
    LedgerInvariant(w, steps);
    NeverPendingAgain(w, steps);
    var more := PlansFollowTheLog(w, steps, s);
    assert w.log + more == more;
  }

  // --- What one callback may write, and what it may answer ---------------------------------------

  ghost predicate IsCallback(a: Action) {
    a.Arrive? || a.Hear? || a.Commit?
  }

  function ShopOfCallback(w: World, a: Action): ShopId
    requires Enabled(w, a) && IsCallback(a)
  {
    if a.Arrive? then a.request.shop else w.calls[a.i].request.shop
  }

  /** The rows of another shop are as they were. */
  lemma CallbackStaysHome(w: World, a: Action, s: ShopId, id: ChargeId)
    requires WellFormed(w) && Enabled(w, a) && IsCallback(a) && s != ShopOfCallback(w, a)
    ensures var next := Apply(w, a).rows;
      && (s in w.rows.shops ==> s in next.shops && next.shops[s] == w.rows.shops[s])
      && (id in next.charges <==> id in w.rows.charges)
      && (id in w.rows.charges && w.rows.charges[id].shop == s ==> next.charges[id] == w.rows.charges[id])
  {
    hide OnPlan, Spent, Recognised, IntervalFor, ReplayAnswer;
  }

  /** A callback that does not buy leaves every shop alone, and of the charges at most notes that its own has ended. */
  lemma OnlyTheWinnerWrites(w: World, a: Action)
    requires WellFormed(w) && Enabled(w, a) && IsCallback(a) && Apply(w, a).log == w.log
    ensures var next := Apply(w, a).rows;
      && next.shops == w.rows.shops
      && (next.charges != w.rows.charges ==>
           && a.Hear? && a.reply.Ended? && StatusFor(a.reply.standing).Some?
           && var id := Decimal.Value(w.calls[a.i].request.raw);
           && id in w.rows.charges && w.rows.charges[id].shop == w.calls[a.i].request.shop
           && next.charges == w.rows.charges[id :=
                w.rows.charges[id].(status := StatusFor(a.reply.standing).value, cancelledAt := Some(a.now))])
  {
    hide Bought, CanSpend, Recognised, IntervalFor, ReplayAnswer;
  }

  /** The charge and the shop carry the plan, the cadence and the trial of the purchase. */
  ghost predicate WrittenBy(r: Rows, e: PlanChange)
    requires e.Paid?
  {
    var p, id := e.purchase, Decimal.Value(e.purchase.raw);
    var trialEnd := if p.trialDays > 0 then Some(p.at + p.trialDays * 86_400_000) else None;
    && id in r.charges && p.shop in r.shops
    && var c, s := r.charges[id], r.shops[p.shop];
    && c.status.Active? && c.activatedAt == Some(p.at) && c.nonceUsedAt == Some(p.at)
    && c.cycle == Some(p.interval) && c.trialDays == p.trialDays && c.trialEndsAt == trialEnd
    && s.currentPlan == p.plan && s.activeCharge == Some(p.raw) && s.cycle == Some(p.interval)
    && s.inTrial == (p.trialDays > 0) && s.trialEndsAt == trialEnd
    && s.planStartedAt == Some(p.at) && s.planConfirmedAt == Some(p.at)
  }

  /** A callback about to commit holds what it heard and read, and nothing else. */
  lemma CheckedHoldsWhatItHeard(w: World, i: CallId, reply: Reply, now: int)
    requires WellFormed(w) && Enabled(w, Hear(i, reply, now)) && Apply(w, Hear(i, reply, now)).calls[i].Checked?
    ensures var before, c := w.calls[i], Apply(w, Hear(i, reply, now)).calls[i];
      && reply.Subscribed? && reply.plan == Some(c.plan) && reply.sub == c.sub
      && c.request == before.request && c.shopSeen == before.shopSeen
      && var id := Decimal.Value(before.request.raw);
         id in w.rows.charges && w.rows.charges[id].shop == before.request.shop && c.attemptSeen == w.rows.charges[id]
  {
    hide StateAgrees, AttemptAgrees, IntervalFor, ReplayAnswer;
  }

  /** The cadence by which a page without a purchase is judged: declared, or of the state, or of the row, or monthly. */
  function Cadence(sub: Subscription, state: Option<AttemptState>, row: Option<Charge>): Cycle {
    match (sub.interval, state)
    case (Some(declared), _) => declared
    case (None, Some(said)) => said.interval
    case (None, None) => if row.Some? && row.value.cycle == Some(Yearly) then Yearly else Monthly
  }

  /**
   What a callback answers as soon as it has heard Shopify, and what it notes. Ok only over
   a shop that is already on this charge, plan and cadence, with the charge active. Of an
   ended subscription the own row is marked; one that is neither active nor ended leaves
   every row alone.
   */
  lemma AnswerWithoutABuy(w: World, i: CallId, reply: Reply, now: int)
    requires WellFormed(w) && Enabled(w, Hear(i, reply, now)) && Apply(w, Hear(i, reply, now)).calls[i].Answered?
    ensures var request, shop, next := w.calls[i].request, w.calls[i].shopSeen, Apply(w, Hear(i, reply, now));
      var id := Decimal.Value(request.raw);
      var row := if id in w.rows.charges && w.rows.charges[id].shop == request.shop then Some(w.rows.charges[id]) else None;
      && (next.calls[i].outcome.Ok? <==>
           && reply.Subscribed? && reply.plan.Some?
           && shop.activeCharge == Some(request.raw) && shop.currentPlan == reply.plan.value
           && (if shop.cycle.Some? then shop.cycle.value else Monthly) == Cadence(reply.sub, request.state, row)
           && row.Some? && row.value.status.Active?)
      && (next.calls[i].outcome.Ok? ==> (next.calls[i].outcome.firstPlan <==> !shop.setupDone))
      && next.rows.shops == w.rows.shops
      && next.rows.charges ==
           if reply.Ended? && row.Some? && !reply.standing.StandsOtherwise?
           then w.rows.charges[id := row.value.(status := if reply.standing.StandsDeclined? then Declined else Cancelled, cancelledAt := Some(now))]
           else w.rows.charges
  {
    hide Recognised;
  }

  /**
   A callback at its commit. It wins exactly when the transaction is carried out and finds
   the row still pending and unspent. It answers ok only if it hears of the transaction:
   if it had read the row pending, exactly when it won; if it had read it later than that,
   it cannot win, and the answer is ok exactly when what it read was already applied.
   */
  lemma OutcomeOfACommit(w: World, i: CallId, now: int, fate: Fate)
    requires WellFormed(w) && LedgerInv(w) && Enabled(w, Commit(i, now, fate))
    ensures var c, next := w.calls[i], Apply(w, Commit(i, now, fate));
      var row := w.rows.charges[Decimal.Value(c.request.raw)];
      var won := !fate.Failed? && row.status.Pending? && row.nonceUsedAt.None?;
      && next.calls[i].Answered?
      && (won <==> next.log != w.log)
      && (won ==> next.log == w.log + [Payment(i, c, now)])
      && (won ==> WrittenBy(next.rows, Payment(i, c, now)))
      && (!won ==> next.rows == w.rows)
      && (!fate.Heeded? ==> next.calls[i].outcome.Ko?)
      && (fate.Heeded? && c.attemptSeen.status.Pending? ==> (next.calls[i].outcome.Ok? <==> won))
      && (!c.attemptSeen.status.Pending? ==>
           && !won
           && (fate.Heeded? ==>
                (next.calls[i].outcome.Ok? <==>
                  AlreadyApplied(c.shopSeen, Some(c.attemptSeen), c.request.raw, c.plan, c.interval))))
  {
    assert ReadFits(w, w.calls[i]);
    hide Bought, StateAgrees, NoncesUnique, LogProven, OncePerCharge, ReadsFit;
  }

  /** The same of any commit that any run leads to. */
  lemma OutcomeInAnyRun(w: World, steps: seq<Action>, i: CallId, now: int, fate: Fate)
    requires Initial(w) && Run(w, steps) && Enabled(Exec(w, steps), Commit(i, now, fate))
    ensures var v := Exec(w, steps);
      var c, next := v.calls[i], Apply(v, Commit(i, now, fate));
      && Decimal.Value(c.request.raw) in v.rows.charges
      && var row := v.rows.charges[Decimal.Value(c.request.raw)];
      var won := !fate.Failed? && row.status.Pending? && row.nonceUsedAt.None?;
      && next.calls[i].Answered?
      && (if won then |next.log| == |v.log| + 1 else next.log == v.log && next.rows == v.rows)
      && (won ==> c.attemptSeen.status.Pending?)
      && (next.calls[i].outcome.Ok? <==>
           fate.Heeded? && (won || AlreadyApplied(c.shopSeen, Some(c.attemptSeen), c.request.raw, c.plan, c.interval)))
  {
    LedgerInvariant(w, steps);
    var v := Exec(w, steps);
    assert ReadFits(v, v.calls[i]);
    OutcomeOfACommit(v, i, now, fate);
    hide Apply, Exec, Run, Recognised, IntervalFor;
  }

  /** Every step is a callback's, and of another shop. */
  ghost predicate CallbacksElsewhere(w: World, steps: seq<Action>, s: ShopId)
    requires Run(w, steps)
    decreases |steps|
  {
    steps == [] ||
    (IsCallback(steps[0]) && ShopOfCallback(w, steps[0]) != s && CallbacksElsewhere(Apply(w, steps[0]), steps[1..], s))
  }

  /** However many callbacks of other shops run, a shop and its charges stay as they are. */
  lemma {:induction false} CallbacksStayHome(w: World, steps: seq<Action>, s: ShopId, id: ChargeId)
    requires Run(w, steps) && CallbacksElsewhere(w, steps, s)
    ensures var end := Exec(w, steps).rows;
      && (s in w.rows.shops ==> s in end.shops && end.shops[s] == w.rows.shops[s])
      && (id in end.charges <==> id in w.rows.charges)
      && (id in w.rows.charges && w.rows.charges[id].shop == s ==> end.charges[id] == w.rows.charges[id])
    decreases |steps|
  {
    hide Apply, Enabled, WellFormed, IsCallback, ShopOfCallback;
    if steps != [] {
      CallbackStaysHome(w, steps[0], s, id);
      CallbacksStayHome(Apply(w, steps[0]), steps[1..], s, id);
    }
  }

  // --- Reloading the page ----------------------------------------------------------------------

  /** Callback i buys if it commits now, whether or not it hears of it. */
  ghost predicate Wins(w: World, i: CallId, now: int, fate: Fate) {
    Enabled(w, Commit(i, now, fate)) && !fate.Failed? && w.calls[i].request.state.Some? && CanSpend(w.rows, PurchaseOf(w.calls[i], now))
  }

  /** The same shop and charge; the same state, or none, as an old link has. */
  ghost predicate SameAddress(a: Request, b: Request) {
    a.shop == b.shop && a.raw == b.raw && (b.state.None? || b.state == a.state)
  }

  /**
   A second callback of the same charge, its two reads taken before or after the winner's
   commit: what it saw counts as already applied exactly when both were taken after.
   */
  lemma ReplayNeedsBothReadsAfter(w: World, i: CallId, now: int, fate: Fate, again: Request, shopAfter: bool, rowAfter: bool)
    requires WellFormed(w) && ReadsFit(w) && Wins(w, i, now, fate) && SameAddress(w.calls[i].request, again)
    requires w.rows.shops[again.shop].activeCharge != Some(again.raw)
    ensures var c, next := w.calls[i], Apply(w, Commit(i, now, fate));
      var shop := (if shopAfter then next else w).rows.shops[again.shop];
      var row := AttemptRow((if rowAfter then next else w).rows, again);
      AlreadyApplied(shop, row, again.raw, c.plan, IntervalFor(c.sub, again.state, row)) <==> shopAfter && rowAfter
  {
    assert ReadFits(w, w.calls[i]);
    hide TrialEnd, Recognised, ReplayAnswer, ReadsFit;
  }

  /** The shop and the charge as the winner left them. */
  ghost predicate Undisturbed(w: World, v: World, request: Request) {
    var id := Decimal.Value(request.raw);
    && request.shop in w.rows.shops && request.shop in v.rows.shops && v.rows.shops[request.shop] == w.rows.shops[request.shop]
    && id in w.rows.charges && id in v.rows.charges && v.rows.charges[id] == w.rows.charges[id]
  }

  /**
   A reload after the purchase and before any later change of that shop and charge, with
   anything else happening in between: the answer is ok and nothing is written. It is so
   also when the winner itself never heard that it had won and was told ko.
   */
  lemma SequentialReplayAnswersOk(w: World, i: CallId, now: int, fate: Fate, j: CallId, again: Request, v: World, soon: int, u: World, later: int)
    requires WellFormed(w) && ReadsFit(w) && Wins(w, i, now, fate) && SameAddress(w.calls[i].request, again)
    requires var after := Apply(w, Commit(i, now, fate)); WellFormed(after) && Enabled(after, Arrive(j, again))
    requires WellFormed(v) && Undisturbed(Apply(w, Commit(i, now, fate)), v, again)
    requires j in v.calls && v.calls[j] == Apply(Apply(w, Commit(i, now, fate)), Arrive(j, again)).calls[j]
    requires var heard := Apply(v, Hear(j, Subscribed(w.calls[i].sub, Some(w.calls[i].plan)), soon));
      WellFormed(u) && Undisturbed(v, u, again) && j in u.calls && u.calls[j] == heard.calls[j]
    ensures var heard := Apply(v, Hear(j, Subscribed(w.calls[i].sub, Some(w.calls[i].plan)), soon));
      && heard.rows == v.rows
      && (heard.calls[j].Answered? ==> heard.calls[j].outcome.Ok?)
      && (!heard.calls[j].Answered? ==>
           && Enabled(u, Commit(j, later, Heeded))
           && var done := Apply(u, Commit(j, later, Heeded));
              done.rows == u.rows && done.log == u.log && done.calls[j].Answered? && done.calls[j].outcome.Ok?)
  {
    assert ReadFits(w, w.calls[i]);
    hide TrialEnd, StateAgrees, AttemptAgrees, ReadsFit;
  }

  // --- Two tabs --------------------------------------------------------------------------------------

  const TAB := Request(true, Some(AttemptState("n", 0, "Growth", Cents(2900), Some("EUR"), Monthly)), 0, "7")

  const GROWTH := Subscription(Some("EUR"), Some(Monthly), Some(Cents(2900)), None)

  const ATTEMPT := NewCharge(0, "n", "Growth", Cents(2900), "EUR", Monthly, 0)

  const BEFORE := Shop("Basic", None, None, None, false, None, None, Permitted, Permitted, true)

  const TWO_TABS := World(Rows(map[7 := ATTEMPT], map[0 := BEFORE]), map[], [])

  lemma {:induction false} RunExtends(w: World, steps: seq<Action>, a: Action)
    requires Run(w, steps) && Enabled(Exec(w, steps), a)
    ensures Run(w, steps + [a]) && Exec(w, steps + [a]) == Apply(Exec(w, steps), a)
    decreases |steps|
  {
    hide Apply, Enabled, WellFormed;
    if steps == [] {
      assert (steps + [a])[1..] == [];
    } else {
      assert (steps + [a])[1..] == steps[1..] + [a];
      RunExtends(Apply(w, steps[0]), steps[1..], a);
    }
  }

  /** An attempt that is recognised, and is not once Shopify leaves the currency out. */
  lemma SilentCurrencyBlocks()
    ensures Recognised(TAB.state, Some(ATTEMPT), GROWTH, "Growth", 0)
    ensures Recognised(TAB.state, Some(ATTEMPT), GROWTH.(price := None, interval := None), "Growth", 0)
    ensures !Recognised(TAB.state, Some(ATTEMPT), GROWTH.(currency := None), "Growth", 0)
  {
    SilenceBlocksOnlyOnTheCurrency(TAB.state, Some(ATTEMPT), GROWTH, "Growth", 0);
    SilenceBlocksOnlyOnTheCurrency(TAB.state, Some(ATTEMPT), GROWTH.(price := None), "Growth", 0);
  }

  const READ := Checked(TAB, BEFORE, ATTEMPT, GROWTH, "Growth", Monthly)

  lemma TabSeven()
    ensures Decimal.Value(TAB.raw) == 7
  {
    assert "7"[..0] == "" && "7"[0] == '7';
  }

  lemma TabsArrive() returns (steps: seq<Action>)
    ensures Run(TWO_TABS, steps)
    ensures Exec(TWO_TABS, steps) == TWO_TABS.(calls := map[0 := Arrived(TAB, BEFORE), 1 := Arrived(TAB, BEFORE)])
  {
    RunExtends(TWO_TABS, [], Arrive(0, TAB));
    RunExtends(TWO_TABS, [] + [Arrive(0, TAB)], Arrive(1, TAB));
    steps := [] + [Arrive(0, TAB)] + [Arrive(1, TAB)];
  }

  lemma TabsRead() returns (steps: seq<Action>)
    ensures Run(TWO_TABS, steps)
    ensures Exec(TWO_TABS, steps) == TWO_TABS.(calls := map[0 := READ, 1 := READ])
  {
    TabSeven();
    steps := TabsArrive();
    hide Run, Exec;
    var a, b := Hear(0, Subscribed(GROWTH, Some("Growth")), 1), Hear(1, Subscribed(GROWTH, Some("Growth")), 1);
    RunExtends(TWO_TABS, steps, a);
    assert Exec(TWO_TABS, steps + [a]) == TWO_TABS.(calls := map[0 := READ, 1 := Arrived(TAB, BEFORE)]);
    RunExtends(TWO_TABS, steps + [a], b);
    steps := steps + [a] + [b];
  }

  /** Both tabs read before either commits: the second is told ko although the purchase went through. */
  lemma ConcurrentLoserIsToldKo() returns (steps: seq<Action>)
    ensures Initial(TWO_TABS) && Run(TWO_TABS, steps)
    ensures var end := Exec(TWO_TABS, steps);
      && 0 in end.calls && 1 in end.calls && end.calls[0] == Answered(Ok(false)) && end.calls[1] == Answered(Ko)
      && |end.log| == 1
  {
    TabSeven();
    steps := TabsRead();
    hide Run, Exec, Recognised;
    RunExtends(TWO_TABS, steps, Commit(0, 2, Heeded));
    var w := Exec(TWO_TABS, steps + [Commit(0, 2, Heeded)]);
    assert w.log == [Payment(0, READ, 2)] && w.calls == map[0 := Answered(Ok(false)), 1 := READ];
    assert !w.rows.charges[7].status.Pending?;
    RunExtends(TWO_TABS, steps + [Commit(0, 2, Heeded)], Commit(1, 3, Heeded));
    steps := steps + [Commit(0, 2, Heeded)] + [Commit(1, 3, Heeded)];
  }

  // --- What the other writers do, from their first step to their last ---------------------------------

  /** The charges with one row changed, if it is this shop's. */
  ghost predicate OnlyRow(before: map<ChargeId, Charge>, after: map<ChargeId, Charge>, s: ShopId, id: ChargeId, c: Charge) {
    after == if id in before && before[id].shop == s then before[id := c] else before
  }

  /** The shop is on this plan and charge, paid every month, and no other shop has moved. */
  ghost predicate OnlyShop(before: map<ShopId, Shop>, after: map<ShopId, Shop>, s: ShopId, plan: Plan, charge: Option<string>)
    requires s in before
  {
    && after.Keys == before.Keys && (forall u | u in before && u != s :: after[u] == before[u])
    && after[s].currentPlan == plan && after[s].activeCharge == charge && after[s].cycle == Some(Monthly)
    && after[s].setupDone == before[s].setupDone && after[s].planConfirmedAt == before[s].planConfirmedAt
  }

  /** The shop is moved to the charge, and its row marked active; nothing else moves. */
  ghost predicate Upgrades(w: World, v: World, i: CallId, s: ShopId, id: ChargeId, plan: Plan, days: int, now: int, later: int)
    requires WellFormed(w) && WellFormed(v) && s in w.rows.shops
  {
    && Enabled(v, Align(i, plan, days, now)) && Enabled(Apply(v, Align(i, plan, days, now)), MarkActive(i, later))
    && var end := Apply(Apply(v, Align(i, plan, days, now)), MarkActive(i, later));
    && OnlyShop(w.rows.shops, end.rows.shops, s, plan, Some(Decimal.Numeral(id)))
    && (id in w.rows.charges ==>
         OnlyRow(w.rows.charges, end.rows.charges, s, id, w.rows.charges[id].(status := Active, activatedAt := Some(later))))
    && (id !in w.rows.charges ==> end.rows.charges == w.rows.charges)
    && end.calls == w.calls[i := Over]
  }

  /** The shop loses the charge, and its row is cancelled; nothing else moves. */
  ghost predicate Downgrades(w: World, v: World, i: CallId, s: ShopId, id: ChargeId, plan: Plan, now: int, later: int)
    requires WellFormed(w) && WellFormed(v) && s in w.rows.shops
  {
    && Enabled(v, Retire(i, plan, now)) && Enabled(Apply(v, Retire(i, plan, now)), MarkEnded(i, later))
    && var end := Apply(Apply(v, Retire(i, plan, now)), MarkEnded(i, later));
    && OnlyShop(w.rows.shops, end.rows.shops, s, plan, None)
    && (id in w.rows.charges ==>
         OnlyRow(w.rows.charges, end.rows.charges, s, id, w.rows.charges[id].(status := Cancelled, cancelledAt := Some(later))))
    && (id !in w.rows.charges ==> end.rows.charges == w.rows.charges)
    && end.calls == w.calls[i := Over]
  }

  lemma CallsStayWellFormed(w: World, i: CallId, c: Phase)
    requires WellFormed(w) && (c.Aligning? || c.Retiring?) && c.shop in w.rows.shops
    ensures WellFormed(w.(calls := w.calls[i := c]))
  {
    var v := w.(calls := w.calls[i := c]);
    forall j | j in v.calls && j != i ensures v.calls[j] == w.calls[j] {
    }
  }

  lemma AlignedAndMarked(w: World, i: CallId, s: ShopId, id: ChargeId, plan: Plan, days: int, now: int, later: int)
    requires WellFormed(w) && i !in w.calls && s in w.rows.shops
    requires var v := w.(calls := w.calls[i := Aligning(s, id)]); WellFormed(v)
    ensures Upgrades(w, w.(calls := w.calls[i := Aligning(s, id)]), i, s, id, plan, days, now, later)
  {
    hide WellFormed, Heard, Committed, LeftForFree, Opened, Superseding, MayLeave, TrialEnd, Reopened, Decimal.Numeral;
    var v := w.(calls := w.calls[i := Aligning(s, id)]);
    var u := Apply(v, Align(i, plan, days, now));
    assert u.calls[i] == Marking(s, id) && u.calls == w.calls[i := Marking(s, id)];
  }

  lemma RetiredAndMarked(w: World, i: CallId, s: ShopId, id: ChargeId, plan: Plan, now: int, later: int)
    requires WellFormed(w) && i !in w.calls && s in w.rows.shops
    requires var v := w.(calls := w.calls[i := Retiring(s, id)]); WellFormed(v)
    ensures Downgrades(w, w.(calls := w.calls[i := Retiring(s, id)]), i, s, id, plan, now, later)
  {
    hide WellFormed, Heard, Committed, LeftForFree, Opened, Superseding, MayLeave, TrialEnd, Reopened;
    var v := w.(calls := w.calls[i := Retiring(s, id)]);
    var u := Apply(v, Retire(i, plan, now));
    assert u.calls[i] == Closing(s, id) && u.calls == w.calls[i := Closing(s, id)];
  }

  /**
   A notice of an active charge ends at once when the shop is on that charge; undisturbed it
   else moves the shop to it and marks its row active, and nothing else.
   */
  lemma NoticeOfAnActiveCharge(w: World, i: CallId, s: ShopId, id: ChargeId, plan: Plan, days: int, now: int, later: int)
    requires WellFormed(w) && i !in w.calls && s in w.rows.shops
    ensures var v := Apply(w, Notice(i, s, id));
      && v.rows == w.rows && v.log == w.log
      && if w.rows.shops[s].activeCharge == Some(Decimal.Numeral(id)) then v.calls == w.calls[i := Over]
         else Upgrades(w, v, i, s, id, plan, days, now, later)
  {
    CallsStayWellFormed(w, i, Aligning(s, id));
    AlignedAndMarked(w, i, s, id, plan, days, now, later);
    hide Decimal.Numeral, Upgrades, WellFormed;
  }

  /**
   A notice of the end of a charge moves only the shop that is on that charge: of the charge
   that a purchase has just replaced it changes nothing.
   */
  lemma NoticeOfAnEnd(w: World, i: CallId, s: ShopId, id: ChargeId, plan: Plan, now: int, later: int)
    requires WellFormed(w) && i !in w.calls && s in w.rows.shops
    ensures var v := Apply(w, NoticeEnd(i, s, id));
      && v.rows == w.rows && v.log == w.log
      && if w.rows.shops[s].activeCharge != Some(Decimal.Numeral(id)) then v.calls == w.calls[i := Over]
         else Downgrades(w, v, i, s, id, plan, now, later)
  {
    CallsStayWellFormed(w, i, Retiring(s, id));
    RetiredAndMarked(w, i, s, id, plan, now, later);
    hide Decimal.Numeral, Downgrades, WellFormed;
  }

  /** With nothing active at Shopify the shop loses the charge it is on, if it is on a numbered one. */
  lemma NothingActiveAtShopify(w: World, i: CallId, s: ShopId, plan: Plan, now: int, later: int)
    requires WellFormed(w) && i !in w.calls && s in w.rows.shops
    ensures var v, on := Apply(w, Reconcile(i, s)), w.rows.shops[s].activeCharge;
      && v.rows == w.rows && v.log == w.log
      && if on.Some? && Decimal.AllDigits(Text.Trim(on.value))
         then Downgrades(w, v, i, s, Decimal.Value(Text.Trim(on.value)), plan, now, later)
         else v.calls == w.calls[i := Over]
  {
    hide Decimal.AllDigits, Decimal.Value, Text.Trim, Downgrades, WellFormed;
    var on := w.rows.shops[s].activeCharge;
    if Numeric(on).Some? {
      CallsStayWellFormed(w, i, Retiring(s, Numeric(on).value));
      RetiredAndMarked(w, i, s, Numeric(on).value, plan, now, later);
    }
  }

  /**
   A subscription at Shopify that nobody expected is not live here afterwards: a row that was
   missing is there to be closed, one of the shop that was live is too, and no other row is touched.
   */
  lemma UnknownSubscriptionIsQueued(w: World, s: ShopId, id: ChargeId, plan: Plan)
    requires WellFormed(w) && s in w.rows.shops
    ensures var v := Apply(w, Enqueue(s, id, plan));
      && Enabled(v, Supersede(s, id))
      && var end, before := Apply(v, Supersede(s, id)), w.rows.charges;
      && end.rows.shops == w.rows.shops && end.calls == w.calls && end.log == w.log
      && end.rows.charges ==
           if id !in before then before[id := Charge(s, plan, None, None, None, Superseded, 7, None, None, None, None, None)]
           else if before[id].shop == s && (before[id].status.Active? || before[id].status.Pending?)
           then before[id := before[id].(status := Superseded)]
           else before
  {
  }

  /** The outbox lists exactly the superseded rows of the shop, and closing one cancels that one alone. */
  lemma OutboxClosesWhatWasSuperseded(w: World, i: CallId, s: ShopId, id: ChargeId, now: int)
    requires WellFormed(w) && i !in w.calls && s in w.rows.shops
    ensures var v, before := Apply(w, Drain(i, s)), w.rows.charges;
      && v.rows == w.rows && v.log == w.log
      && (Enabled(v, Close(i, id, now)) <==> id in before && before[id].shop == s && before[id].status.Superseded?)
      && (Enabled(v, Close(i, id, now)) ==>
            Apply(v, Close(i, id, now)) ==
              v.(rows := w.rows.(charges := before[id := before[id].(status := Cancelled, cancelledAt := Some(now))])))
  {
  }

  /** The free plan is chosen by a shop that is not blocked and not on it. */
  lemma WhoMayLeave(w: World, i: CallId, s: ShopId, plan: Plan)
    ensures Enabled(w, Leave(i, s, plan)) <==>
      i !in w.calls && s in w.rows.shops && w.rows.shops[s].authorization != Disabled && w.rows.shops[s].currentPlan != plan
  {
  }

  // --- One live subscription ---------------------------------------------------------------------

  ghost predicate OneActive(charges: map<ChargeId, Charge>) {
    forall a, b |
      a in charges && b in charges && charges[a].status.Active? && charges[b].status.Active? && charges[a].shop == charges[b].shop ::
      a == b
  }

  /** A notice about to mark a row active finds no other active row of the shop, or no such row. */
  ghost predicate Harmless(w: World, a: Action)
    requires Enabled(w, a)
  {
    a.MarkActive? ==>
      var s, id := w.calls[a.i].shop, w.calls[a.i].charge;
      || id !in w.rows.charges || w.rows.charges[id].shop != s
      || forall k | k in w.rows.charges && k != id && w.rows.charges[k].shop == s :: !w.rows.charges[k].status.Active?
  }

  lemma MarkActiveIsExact(w: World, i: CallId, now: int)
    requires WellFormed(w) && Enabled(w, MarkActive(i, now)) && OneActive(w.rows.charges)
    ensures OneActive(Apply(w, MarkActive(i, now)).rows.charges) <==> Harmless(w, MarkActive(i, now))
  {
    var s, id := w.calls[i].shop, w.calls[i].charge;
    var before, after := w.rows.charges, Apply(w, MarkActive(i, now)).rows.charges;
    if !Harmless(w, MarkActive(i, now)) {
      var k :| k in before && k != id && before[k].shop == s && before[k].status.Active?;
      assert after[k].status.Active? && after[id].status.Active? && after[k].shop == after[id].shop;
    }
  }

  /** A step leaves a shop with one active charge exactly when it is harmless. */
  lemma StepKeepsOneActive(w: World, a: Action)
    requires WellFormed(w) && Enabled(w, a) && OneActive(w.rows.charges)
    ensures OneActive(Apply(w, a).rows.charges) <==> Harmless(w, a)
  {
    hide Recognised, IntervalFor, ReplayAnswer, OnPlan, TrialEnd, Numeric, NonceTaken;
    if a.MarkActive? {
      MarkActiveIsExact(w, a.i, a.now);
    }
  }

  ghost predicate HarmlessRun(w: World, steps: seq<Action>)
    requires Run(w, steps)
    decreases |steps|
  {
    steps == [] || (Harmless(w, steps[0]) && HarmlessRun(Apply(w, steps[0]), steps[1..]))
  }

  ghost predicate OneActiveThroughout(w: World, steps: seq<Action>)
    requires Run(w, steps)
    decreases |steps|
  {
    OneActive(w.rows.charges) && (steps == [] || OneActiveThroughout(Apply(w, steps[0]), steps[1..]))
  }

  /** A shop has at most one active charge all through a run exactly when every notice in it is harmless. */
  lemma {:induction false} OneActivePerShop(w: World, steps: seq<Action>)
    requires Run(w, steps) && OneActive(w.rows.charges)
    ensures OneActiveThroughout(w, steps) <==> HarmlessRun(w, steps)
    decreases |steps|
  {
    hide Apply, Enabled, WellFormed, OneActive, Harmless;
    if steps != [] {
      StepKeepsOneActive(w, steps[0]);
      if Harmless(w, steps[0]) {
        OneActivePerShop(Apply(w, steps[0]), steps[1..]);
      } else {
        assert !OneActiveThroughout(Apply(w, steps[0]), steps[1..]);
      }
    }
  }

  /**
   Moving to the free plan closes the charge that was on the shop when the page read it. It
   leaves no active charge behind exactly when that is still the active one.
   */
  lemma LeavingClosesWhatItSaw(w: World, i: CallId, now: int, live: ChargeId)
    requires WellFormed(w) && OneActive(w.rows.charges) && Enabled(w, CommitLeave(i, now))
    requires live in w.rows.charges && w.rows.charges[live].shop == w.calls[i].shop && w.rows.charges[live].status.Active?
    ensures var s, next := w.calls[i].shop, Apply(w, CommitLeave(i, now)).rows;
      && next.shops[s].activeCharge.None?
      && ((forall id | id in next.charges && next.charges[id].shop == s :: !next.charges[id].status.Active?)
           <==> Numeric(w.calls[i].seen) == Some(live))
  {
    hide Numeric, TrialEnd;
    var s, next := w.calls[i].shop, Apply(w, CommitLeave(i, now)).rows;
    if Numeric(w.calls[i].seen) == Some(live) {
      forall id | id in next.charges && next.charges[id].shop == s ensures !next.charges[id].status.Active? {
      }
    } else {
      assert next.charges[live].status.Active? && next.charges[live].shop == s;
    }
  }

  // --- Two purchases, and who comes late ------------------------------------------------------------

  function PurchaseBy(v: World, request: Request, sub: Subscription, plan: Plan, now: int): Purchase
    requires request.state.Some?
  {
    Purchase(request.shop, request.raw, request.state.value.nonce, plan, sub.trialDays.GetOr(0),
             IntervalFor(sub, request.state, AttemptRow(v.rows, request)), now)
  }

  /** The attempt can be bought: its row is there, unspent, and the three sources agree. */
  ghost predicate Buyable(v: World, request: Request, sub: Subscription, plan: Plan) {
    && request.signed && request.state.Some? && request.shop in v.rows.shops
    && var row := AttemptRow(v.rows, request);
    && row.Some? && row.value.status.Pending? && row.value.nonceUsedAt.None?
    && Recognised(request.state, row, sub, plan, request.shop)
  }

  lemma BuyableCanSpend(v: World, request: Request, sub: Subscription, plan: Plan, now: int)
    requires Buyable(v, request, sub, plan)
    ensures CanSpend(v.rows, PurchaseBy(v, request, sub, plan, now))
  {
  }

  /** A callback that runs undisturbed buys. */
  lemma BuysIn(w: World, before: seq<Action>, i: CallId, request: Request, sub: Subscription, plan: Plan, now: int)
    returns (steps: seq<Action>)
    requires Run(w, before) && i !in Exec(w, before).calls && Buyable(Exec(w, before), request, sub, plan)
    ensures Run(w, steps)
    ensures var v := Exec(w, before);
      var p := PurchaseBy(v, request, sub, plan, now);
      && CanSpend(v.rows, p)
      && Exec(w, steps) ==
           World(Bought(v.rows, p), v.calls[i := Answered(Ok(!v.rows.shops[request.shop].setupDone))], v.log + [Paid(i, p, sub, request.state.value)])
  {
    hide Run, Exec, Recognised, Bought, IntervalFor;
    var v := Exec(w, before);
    var reply := Subscribed(sub, Some(plan));
    RunExtends(w, before, Arrive(i, request));
    steps := before + [Arrive(i, request)];
    RunExtends(w, steps, Hear(i, reply, now));
    steps := steps + [Hear(i, reply, now)];
    var row := AttemptRow(v.rows, request);
    assert Exec(w, steps).calls[i] == Checked(request, v.rows.shops[request.shop], row.value, sub, plan, IntervalFor(sub, request.state, row));
    assert Exec(w, steps).rows == v.rows && Exec(w, steps).log == v.log;
    BuyableCanSpend(v, request, sub, plan, now);
    RunExtends(w, steps, Commit(i, now, Heeded));
    steps := steps + [Commit(i, now, Heeded)];
    assert v.calls[i := Arrived(request, v.rows.shops[request.shop])].Keys == v.calls.Keys + {i};
  }

  const NOBODY := World(Rows(map[], map[0 := BEFORE]), map[], [])

  const FIRST := Request(true, Some(AttemptState("n", 0, "Growth", Cents(2900), Some("EUR"), Monthly)), 0, "7")

  const SECOND := Request(true, Some(AttemptState("m", 0, "Scale", Cents(7900), Some("EUR"), Monthly)), 0, "8")

  const SCALE := Subscription(Some("EUR"), Some(Monthly), Some(Cents(7900)), None)

  const SCALE_ATTEMPT := NewCharge(0, "m", "Scale", Cents(7900), "EUR", Monthly, 0)

  /** The first plan is bought, and a second attempt opened. */
  lemma BuysOnce() returns (steps: seq<Action>)
    ensures Run(NOBODY, steps)
    ensures var v := Exec(NOBODY, steps);
      && v.calls == map[0 := Answered(Ok(false))]
      && v.rows.charges == map[7 := Spent(ATTEMPT, Monthly, 0, 1), 8 := SCALE_ATTEMPT]
      && v.rows.shops == map[0 := OnPlan(BEFORE, "Growth", Some("7"), 0, Monthly, Some(1), 1)]
  {
    TabSeven();
    var open := Subscribe(7, 0, "n", Cents(2900), "EUR", "Growth", Monthly, 0);
    var again := Subscribe(8, 0, "m", Cents(7900), "EUR", "Scale", Monthly, 0);
    RunExtends(NOBODY, [], open);
    steps := [] + [open];
    hide Run, Exec;
    assert Exec(NOBODY, steps) == NOBODY.(rows := Rows(map[7 := ATTEMPT], map[0 := BEFORE]));
    steps := BuysIn(NOBODY, steps, 0, FIRST, GROWTH, "Growth", 1);
    var v := Exec(NOBODY, steps);
    assert v.rows.charges == map[7 := Spent(ATTEMPT, Monthly, 0, 1)];
    RunExtends(NOBODY, steps, again);
    steps := steps + [again];
  }

  /** What a second purchase makes of the rows the first one left. */
  lemma SecondPurchase(v: World) returns (p: Purchase)
    requires v.rows.charges == map[7 := Spent(ATTEMPT, Monthly, 0, 1), 8 := SCALE_ATTEMPT]
    requires v.rows.shops == map[0 := OnPlan(BEFORE, "Growth", Some("7"), 0, Monthly, Some(1), 1)]
    ensures Buyable(v, SECOND, SCALE, "Scale") && p == PurchaseBy(v, SECOND, SCALE, "Scale", 2) && CanSpend(v.rows, p)
    ensures var r := Bought(v.rows, p);
      && 7 in r.charges && r.charges[7].shop == 0 && r.charges[7].status.Superseded?
      && 8 in r.charges && r.charges[8].shop == 0 && r.charges[8].status.Active?
      && 0 in r.shops && r.shops[0].activeCharge == Some("8")
  {
    p := PurchaseBy(v, SECOND, SCALE, "Scale", 2);
  }

  /** A notice of charge 7 that comes while the shop is on charge 8. */
  lemma NoticeOfSeven(before: seq<Action>) returns (steps: seq<Action>)
    requires Run(NOBODY, before)
    requires var v := Exec(NOBODY, before);
      && 2 !in v.calls && 0 in v.rows.shops && v.rows.shops[0].activeCharge == Some("8")
      && 7 in v.rows.charges && v.rows.charges[7].shop == 0
      && 8 in v.rows.charges && v.rows.charges[8].shop == 0 && v.rows.charges[8].status.Active?
    ensures Run(NOBODY, steps)
    ensures var end := Exec(NOBODY, steps).rows;
      && !OneActive(end.charges)
      && 0 in end.shops && end.shops[0].currentPlan == "Growth"
  {
    hide Run, Exec, Recognised;
    Decimal.NumeralRoundTrip(7);
    RunExtends(NOBODY, before, Notice(2, 0, 7));
    steps := before + [Notice(2, 0, 7)];
    assert Exec(NOBODY, steps).calls[2] == Aligning(0, 7);
    RunExtends(NOBODY, steps, Align(2, "Growth", 0, 3));
    steps := steps + [Align(2, "Growth", 0, 3)];
    assert Exec(NOBODY, steps).calls[2] == Marking(0, 7);
    RunExtends(NOBODY, steps, MarkActive(2, 4));
    steps := steps + [MarkActive(2, 4)];
    var after := Exec(NOBODY, steps).rows.charges;
    assert after[7].status.Active? && after[8].status.Active? && after[7].shop == after[8].shop;
  }

  /**
   Two purchases one after the other, then a late notice of the first: the shop, which is
   on the second plan, is moved back to the first, and both charges are active.
   */
  lemma LateNoticeMakesTwo() returns (steps: seq<Action>)
    ensures Initial(NOBODY) && Run(NOBODY, steps)
    ensures var end := Exec(NOBODY, steps).rows;
      && !OneActive(end.charges)
      && 0 in end.shops && end.shops[0].currentPlan == "Growth"
  {
    steps := BuysOnce();
    hide Run, Exec, Bought, OnPlan, Buyable, PurchaseBy, CanSpend;
    var p := SecondPurchase(Exec(NOBODY, steps));
    steps := BuysIn(NOBODY, steps, 1, SECOND, SCALE, "Scale", 2);
    steps := NoticeOfSeven(steps);
  }

  /**
   The page of the free plan is read, the second plan is bought in another tab, and only
   then the free plan goes through: a charge stays active with no shop pointing at it.
   */
  lemma StaleLeaveKeepsACharge() returns (steps: seq<Action>)
    ensures Initial(NOBODY) && Run(NOBODY, steps)
    ensures var end := Exec(NOBODY, steps).rows;
      && 8 in end.charges && end.charges[8].status.Active? && end.charges[8].shop == 0
      && 0 in end.shops && end.shops[0].activeCharge.None? && end.shops[0].currentPlan == "Basic"
  {
    steps := BuysOnce();
    hide Run, Exec, Bought, Buyable, PurchaseBy, CanSpend, TrialEnd;
    var v := Exec(NOBODY, steps);
    RunExtends(NOBODY, steps, Leave(2, 0, "Basic"));
    steps := steps + [Leave(2, 0, "Basic")];
    var u := Exec(NOBODY, steps);
    assert u.rows == v.rows && u.calls == map[0 := Answered(Ok(false)), 2 := Leaving(0, Some("7"), "Basic")];
    var p := SecondPurchase(u);
    steps := BuysIn(NOBODY, steps, 1, SECOND, SCALE, "Scale", 2);
    var t := Exec(NOBODY, steps);
    RunExtends(NOBODY, steps, CommitLeave(2, 3));
    steps := steps + [CommitLeave(2, 3)];
    SeenSeven();
    assert Exec(NOBODY, steps).rows == LeftForFree(t.rows, 0, Some("7"), "Basic", 3);
  }

  lemma SeenSeven()
    ensures Numeric(Some("7")) == Some(7)
  {
    TabSeven();
    assert Text.TrimStart("7") == "7" && Text.TrimEnd("7") == "7";
    assert Decimal.AllDigits("7");
  }
}
