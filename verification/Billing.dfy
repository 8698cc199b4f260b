/**
 The ledger of billing attempts: an attempt is opened with a one-shot nonce, and the page
 the merchant comes back to spends it, inside one transaction, against whatever other
 callbacks, sign-offs, notices and clean-ups run beside it.
 */
module Billing {
  import opened Options
  import Decimal
  import Text

  type ShopId = nat
  type ChargeId = nat

  /** The number of a charge as an address carries it, leading zeros included. */
  type ChargeText = s: string | Decimal.AllDigits(s) witness "0"

  type Nonce = string
  type Plan = string
  type Currency = string

  const DAY_MS := 86_400_000

  /** How often a plan is paid. Old rows may hold a word that is neither of the two in use. */
  datatype Cycle = Monthly | Yearly | OtherCycle

  type Interval = c: Cycle | !c.OtherCycle? witness Monthly

  datatype Status = Pending | Active | Superseded | Cancelled | Declined

  datatype Authorization = Permitted | Suspended | Disabled

  /** An amount in hundredths, or a figure that does not read as a plain decimal. */
  datatype Amount = Cents(n: int) | Unreadable

  datatype Charge = Charge(
    shop: ShopId, plan: Plan, price: Option<Amount>, currency: Option<Currency>, cycle: Option<Cycle>,
    status: Status, trialDays: int, trialEndsAt: Option<int>,
    nonce: Option<Nonce>, nonceUsedAt: Option<int>, activatedAt: Option<int>, cancelledAt: Option<int>)

  datatype Shop = Shop(
    currentPlan: Plan, activeCharge: Option<string>, planStartedAt: Option<int>, cycle: Option<Cycle>,
    inTrial: bool, trialEndsAt: Option<int>, planConfirmedAt: Option<int>,
    authorization: Authorization, trackingAuthorization: Authorization, setupDone: bool)

  /** Charges by their number at Shopify, which is unique. */
  datatype Rows = Rows(charges: map<ChargeId, Charge>, shops: map<ShopId, Shop>)

  /** What the signed state of a return address says. */
  datatype AttemptState = AttemptState(
    nonce: Nonce, shop: ShopId, plan: Plan, listPrice: Amount, currency: Option<Currency>, interval: Interval)

  /** What Shopify declares about a live subscription; it may keep silent on each of them. */
  datatype Subscription = Subscription(
    currency: Option<Currency>, interval: Option<Interval>, price: Option<Amount>, trialDays: Option<int>)

  // --- Whose attempt is this? ------------------------------------------------------

  predicate SameAmount(a: Amount, b: Amount) {
    a.Cents? && b.Cents? && a.n == b.n
  }

  predicate NotAbove(a: Amount, b: Amount) {
    a.Cents? && b.Cents? && a.n <= b.n
  }

  predicate SameCurrency(a: Option<Currency>, b: Option<Currency>) {
    a.Some? && a == b
  }

  datatype Complaint =
    | NoState | BadState
    | OtherShop | OtherPlan | OtherCurrency | OtherInterval | OtherListPrice
    | NoAttempt | OtherNonce | AttemptOtherPlan | AttemptOtherCurrency | AttemptOtherInterval | AttemptAboveList

  /** The state and the subscription do not contradict each other. */
  predicate StateAgrees(st: AttemptState, sub: Subscription, plan: Plan, shop: ShopId) {
    && st.shop == shop
    && st.plan == plan
    && (sub.currency.None? || SameCurrency(st.currency, sub.currency))
    && (sub.interval.None? || Some(st.interval) == sub.interval)
    && (sub.price.None? || SameAmount(st.listPrice, sub.price.value))
  }

  /** The row of the attempt contradicts neither the state nor the subscription. */
  predicate AttemptAgrees(a: Charge, st: AttemptState, sub: Subscription, plan: Plan) {
    && a.nonce == Some(st.nonce)
    && a.plan == plan
    && (a.currency.None? || SameCurrency(a.currency, sub.currency))
    && (a.cycle.None? || sub.interval.None? || a.cycle.value == sub.interval.value)
    && (a.price.None? || NotAbove(a.price.value, st.listPrice))
  }

  /** All three sources are there and tell one story. */
  predicate Recognised(state: Option<AttemptState>, attempt: Option<Charge>, sub: Subscription, plan: Plan, shop: ShopId) {
    && state.Some? && attempt.Some?
    && StateAgrees(state.value, sub, plan, shop)
    && AttemptAgrees(attempt.value, state.value, sub, plan)
  }

  /**
   The story in full. State, row and subscription are of one shop, plan and nonce; what
   Shopify declares is what the state says; the row has the declared currency and cadence,
   where it has one, and asked for no more than the list price. A figure that cannot be
   read agrees with nothing.
   */
  ghost predicate OneStory(state: Option<AttemptState>, attempt: Option<Charge>, sub: Subscription, plan: Plan, shop: ShopId) {
    && state.Some? && attempt.Some?
    && var st, a := state.value, attempt.value;
    && st.shop == shop && st.plan == plan && a.plan == plan && a.nonce == Some(st.nonce)
    && (sub.currency.Some? ==> st.currency == sub.currency)
    && (a.currency.Some? ==> sub.currency == a.currency)
    && (sub.interval.Some? ==> st.interval == sub.interval.value && (a.cycle.Some? ==> a.cycle.value == sub.interval.value))
    && (sub.price.Some? ==> sub.price.value.Cents? && st.listPrice == sub.price.value)
    && (a.price.Some? ==> a.price.value.Cents? && st.listPrice.Cents? && a.price.value.n <= st.listPrice.n)
  }

  lemma RecognisedIsOneStory(state: Option<AttemptState>, attempt: Option<Charge>, sub: Subscription, plan: Plan, shop: ShopId)
    ensures Recognised(state, attempt, sub, plan, shop) <==> OneStory(state, attempt, sub, plan, shop)
  {
  }

  /** The list with one more complaint, if it is raised. */
  function Raise(out: seq<Complaint>, raised: bool, c: Complaint): (r: seq<Complaint>)
    ensures forall d :: d in r <==> d in out || (raised && d == c)
  {
    if raised then out + [c] else out
  }

  /** What each complaint about the state says. */
  ghost predicate AgainstState(c: Complaint, st: AttemptState, sub: Subscription, plan: Plan, shop: ShopId) {
    match c
    case OtherShop => st.shop != shop
    case OtherPlan => st.plan != plan
    case OtherCurrency => sub.currency.Some? && st.currency != sub.currency
    case OtherInterval => sub.interval.Some? && st.interval != sub.interval.value
    case OtherListPrice => sub.price.Some? && !(sub.price.value.Cents? && st.listPrice == sub.price.value)
    case _ => false
  }

  /** What each complaint about the row says. */
  ghost predicate AgainstRow(c: Complaint, a: Charge, st: AttemptState, sub: Subscription, plan: Plan) {
    match c
    case OtherNonce => a.nonce != Some(st.nonce)
    case AttemptOtherPlan => a.plan != plan
    case AttemptOtherCurrency => a.currency.Some? && a.currency != sub.currency
    case AttemptOtherInterval => a.cycle.Some? && sub.interval.Some? && a.cycle.value != sub.interval.value
    case AttemptAboveList => a.price.Some? && !(a.price.value.Cents? && st.listPrice.Cents? && a.price.value.n <= st.listPrice.n)
    case _ => false
  }

  method StateMismatches(st: AttemptState, sub: Subscription, plan: Plan, shop: ShopId) returns (out: seq<Complaint>)
    ensures forall c :: c in out <==> AgainstState(c, st, sub, plan, shop)
  {
    out := [];
    out := Raise(out, st.shop != shop, OtherShop);
    out := Raise(out, st.plan != plan, OtherPlan);
    out := Raise(out, sub.currency.Some? && !SameCurrency(st.currency, sub.currency), OtherCurrency);
    out := Raise(out, sub.interval.Some? && st.interval != sub.interval.value, OtherInterval);
    out := Raise(out, sub.price.Some? && !SameAmount(st.listPrice, sub.price.value), OtherListPrice);
  }

  method RowMismatches(a: Charge, st: AttemptState, sub: Subscription, plan: Plan) returns (out: seq<Complaint>)
    ensures forall c :: c in out <==> AgainstRow(c, a, st, sub, plan)
  {
    out := [];
    out := Raise(out, a.nonce != Some(st.nonce), OtherNonce);
    out := Raise(out, a.plan != plan, AttemptOtherPlan);
    out := Raise(out, a.currency.Some? && !SameCurrency(a.currency, sub.currency), AttemptOtherCurrency);
    out := Raise(out, a.cycle.Some? && sub.interval.Some? && a.cycle.value != sub.interval.value, AttemptOtherInterval);
    out := Raise(out, a.price.Some? && !NotAbove(a.price.value, st.listPrice), AttemptAboveList);
  }

  lemma OneStoryHasNoMismatch(state: Option<AttemptState>, attempt: Option<Charge>, sub: Subscription, plan: Plan, shop: ShopId)
    requires state.Some? && attempt.Some?
    ensures OneStory(state, attempt, sub, plan, shop) <==>
      (forall c :: !AgainstState(c, state.value, sub, plan, shop)) && (forall c :: !AgainstRow(c, attempt.value, state.value, sub, plan))
  {
    var st, a := state.value, attempt.value;
    if (forall c :: !AgainstState(c, st, sub, plan, shop)) && (forall c :: !AgainstRow(c, a, st, sub, plan)) {
      assert !AgainstState(OtherShop, st, sub, plan, shop) && !AgainstState(OtherPlan, st, sub, plan, shop);
      assert !AgainstState(OtherCurrency, st, sub, plan, shop) && !AgainstState(OtherInterval, st, sub, plan, shop);
      assert !AgainstState(OtherListPrice, st, sub, plan, shop);
      assert !AgainstRow(OtherNonce, a, st, sub, plan) && !AgainstRow(AttemptOtherPlan, a, st, sub, plan);
      assert !AgainstRow(AttemptOtherCurrency, a, st, sub, plan) && !AgainstRow(AttemptOtherInterval, a, st, sub, plan);
      assert !AgainstRow(AttemptAboveList, a, st, sub, plan);
    }
  }

  /**
   `attemptMismatches`: no complaint exactly when the attempt is recognised; each complaint
   is there exactly when it is deserved, and without a state only the one that says so.
   */
  method AttemptMismatches(
    signed: bool, state: Option<AttemptState>, attempt: Option<Charge>, sub: Subscription, plan: Plan, shop: ShopId)
    returns (out: seq<Complaint>)
    requires state.Some? ==> signed
    ensures out == [] <==> Recognised(state, attempt, sub, plan, shop)
    ensures out == [] <==> OneStory(state, attempt, sub, plan, shop)
    ensures state.None? ==> out == [if signed then BadState else NoState]
    ensures state.Some? && attempt.None? ==>
      forall c :: c in out <==> c == NoAttempt || AgainstState(c, state.value, sub, plan, shop)
    ensures state.Some? && attempt.Some? ==>
      forall c :: c in out <==> AgainstState(c, state.value, sub, plan, shop) || AgainstRow(c, attempt.value, state.value, sub, plan)
  {
    RecognisedIsOneStory(state, attempt, sub, plan, shop);
    if state.Some? && attempt.Some? {
      OneStoryHasNoMismatch(state, attempt, sub, plan, shop);
    }
    hide Recognised, AgainstState, AgainstRow;
    out := [];
    if !signed {
      out := [NoState];
    } else if state.None? {
      out := [BadState];
    }
    if state.None? {
      return;
    }
    var aboutState := StateMismatches(state.value, sub, plan, shop);
    out := out + aboutState;
    if attempt.None? {
      out := out + [NoAttempt];
      return;
    }
    var aboutRow := RowMismatches(attempt.value, state.value, sub, plan);
    out := out + aboutRow;
    hide OneStory;
    if out != [] {
      assert out[0] in out;
    }
  }

  /**
   What Shopify does not declare should not block. That is so for the amount and for the
   interval; a missing currency blocks exactly when the row of the attempt has one.
   */
  lemma SilenceBlocksOnlyOnTheCurrency(
    state: Option<AttemptState>, attempt: Option<Charge>, sub: Subscription, plan: Plan, shop: ShopId)
    requires Recognised(state, attempt, sub, plan, shop)
    ensures Recognised(state, attempt, sub.(price := None), plan, shop)
    ensures Recognised(state, attempt, sub.(interval := None), plan, shop)
    ensures Recognised(state, attempt, sub.(currency := None), plan, shop) <==> attempt.value.currency.None?
  {
    var quiet := sub.(currency := None);
    assert StateAgrees(state.value, quiet, plan, shop);
  }

  // --- The writes -------------------------------------------------------------------

  function TrialEnd(trialDays: int, now: int): Option<int> {
    if trialDays > 0 then Some(now + trialDays * DAY_MS) else None
  }

  function Reopened(a: Authorization, paid: bool): Authorization {
    if paid && a.Suspended? then Permitted else a
  }

  /** `applyPlanToShop`. */
  function OnPlan(shop: Shop, plan: Plan, charge: Option<string>, trialDays: int, cycle: Cycle, confirmedAt: Option<int>, now: int): Shop {
    Shop(plan, charge, Some(now), Some(cycle), trialDays > 0, TrialEnd(trialDays, now),
         if confirmedAt.Some? then confirmedAt else shop.planConfirmedAt,
         Reopened(shop.authorization, charge.Some?), Reopened(shop.trackingAuthorization, charge.Some?), shop.setupDone)
  }

  predicate Spendable(c: Charge, s: ShopId, nonce: Nonce) {
    c.shop == s && c.status.Pending? && c.nonce == Some(nonce) && c.nonceUsedAt.None?
  }

  predicate Live(c: Charge) {
    c.status.Active? || c.status.Pending?
  }

  function Spent(c: Charge, interval: Interval, trialDays: int, now: int): Charge {
    c.(status := Active, activatedAt := Some(now), cycle := Some(interval), trialDays := trialDays,
       trialEndsAt := TrialEnd(trialDays, now), nonceUsedAt := Some(now))
  }

  /** A purchase as the transaction has it in hand. */
  datatype Purchase = Purchase(shop: ShopId, raw: ChargeText, nonce: Nonce, plan: Plan, trialDays: int, interval: Interval, at: int)

  predicate CanSpend(r: Rows, p: Purchase) {
    && p.shop in r.shops
    && var id := Decimal.Value(p.raw); id in r.charges && Spendable(r.charges[id], p.shop, p.nonce)
  }

  /** A purchase that goes through: its charge is spent, no other charge of the shop stays live. */
  function Bought(r: Rows, p: Purchase): Rows
    requires CanSpend(r, p)
  {
    var id := Decimal.Value(p.raw);
    Rows(map k | k in r.charges ::
           if k == id then Spent(r.charges[k], p.interval, p.trialDays, p.at)
           else if r.charges[k].shop == p.shop && Live(r.charges[k]) then r.charges[k].(status := Superseded)
           else r.charges[k],
         r.shops[p.shop := OnPlan(r.shops[p.shop], p.plan, Some(p.raw), p.trialDays, p.interval, Some(p.at), p.at)])
  }

  /** The charge is spent, with its cadence and trial; every other live one of the shop is superseded; the rest stays. */
  ghost predicate SpentAlone(before: map<ChargeId, Charge>, after: map<ChargeId, Charge>, p: Purchase) {
    var id := Decimal.Value(p.raw);
    && after.Keys == before.Keys && id in before
    && after[id] == before[id].(status := Active, activatedAt := Some(p.at), cycle := Some(p.interval), trialDays := p.trialDays,
         trialEndsAt := if p.trialDays > 0 then Some(p.at + p.trialDays * 86_400_000) else None, nonceUsedAt := Some(p.at))
    && forall k | k in before && k != id ::
         after[k] == if before[k].shop == p.shop && (before[k].status.Active? || before[k].status.Pending?)
                     then before[k].(status := Superseded) else before[k]
  }

  lemma BoughtSpendsAlone(r: Rows, p: Purchase)
    requires CanSpend(r, p)
    ensures SpentAlone(r.charges, Bought(r, p).charges, p)
  {
  }

  function WithStatus(charges: map<ChargeId, Charge>, s: ShopId, id: ChargeId, status: Status, now: int): map<ChargeId, Charge> {
    if id in charges && charges[id].shop == s
    then charges[id := charges[id].(status := status, cancelledAt := Some(now))] else charges
  }

  /** `numericChargeId`. */
  function Numeric(raw: Option<string>): Option<ChargeId> {
    if raw.Some? && Decimal.AllDigits(Text.Trim(raw.value)) then Some(Decimal.Value(Text.Trim(raw.value))) else None
  }

  function LeftForFree(r: Rows, s: ShopId, seen: Option<string>, plan: Plan, now: int): Rows
    requires s in r.shops
  {
    Rows(if Numeric(seen).Some? then WithStatus(r.charges, s, Numeric(seen).value, Cancelled, now) else r.charges,
         r.shops[s := OnPlan(r.shops[s], plan, None, 0, Monthly, None, now)])
  }

  predicate NonceTaken(r: Rows, nonce: Nonce) {
    exists id | id in r.charges :: r.charges[id].nonce == Some(nonce)
  }

  function NewCharge(s: ShopId, nonce: Nonce, plan: Plan, price: Amount, currency: Currency, cycle: Interval, trialDays: int): Charge {
    Charge(s, plan, Some(price), Some(currency), Some(cycle), Pending, trialDays, None, Some(nonce), None, None, None)
  }

  /** The creation of the row, refused when the number or the nonce is already there. */
  function Opened(r: Rows, id: ChargeId, c: Charge): Rows
    requires c.nonce.Some?
  {
    if id in r.charges || NonceTaken(r, c.nonce.value) then r else r.(charges := r.charges[id := c])
  }

  class BillingDatabase {
    var charges: map<ChargeId, Charge>
    var shops: map<ShopId, Shop>

    function Contents(): Rows
      reads this
    {
      Rows(charges, shops)
    }

    /** The transaction of the callback: one conditional write decides, the other two follow or do not happen. */
    method Buy(p: Purchase) returns (activated: bool)
      requires p.shop in shops
      modifies this
      ensures activated <==> CanSpend(old(Contents()), p)
      ensures Contents() == if activated then Bought(old(Contents()), p) else old(Contents())
      // The row is taken only while pending, unspent and of that shop and nonce.
      ensures var id := Decimal.Value(p.raw); activated <==>
        id in old(charges) && old(charges)[id].shop == p.shop && old(charges)[id].status.Pending?
        && old(charges)[id].nonce == Some(p.nonce) && old(charges)[id].nonceUsedAt.None?
      ensures activated ==> SpentAlone(old(charges), charges, p)
    {
      var id := Decimal.Value(p.raw);
      ghost var before := Contents();
      var taken := set k | k in charges && k == id && Spendable(charges[k], p.shop, p.nonce);
      charges := map k | k in charges ::
        if k in taken then Spent(charges[k], p.interval, p.trialDays, p.at) else charges[k];
      assert taken == if CanSpend(before, p) then {id} else {};
      if |taken| != 1 {
        assert charges == before.charges;
        return false;
      }
      ApplyPlan(p.shop, p.plan, Some(p.raw), p.trialDays, p.interval, Some(p.at), p.at);
      MarkSuperseded(p.shop, id);
      assert charges == Bought(before, p).charges;
      BoughtSpendsAlone(before, p);
      return true;
    }

    method ApplyPlan(s: ShopId, plan: Plan, charge: Option<string>, trialDays: int, cycle: Cycle, confirmedAt: Option<int>, now: int)
      requires s in shops
      modifies this`shops
      ensures shops == old(shops)[s := OnPlan(old(shops[s]), plan, charge, trialDays, cycle, confirmedAt, now)]
      ensures shops[s].trialEndsAt == if trialDays > 0 then Some(now + trialDays * 86_400_000) else None
      // A paid plan reopens what the end of a trial had suspended, and nothing the owner has closed.
      ensures var was, current := old(shops[s]), shops[s];
        && current.authorization == (if charge.Some? && was.authorization.Suspended? then Permitted else was.authorization)
        && current.trackingAuthorization ==
             (if charge.Some? && was.trackingAuthorization.Suspended? then Permitted else was.trackingAuthorization)
    {
      var current := shops[s];
      var next := current.(currentPlan := plan, activeCharge := charge, planStartedAt := Some(now), cycle := Some(cycle),
        inTrial := trialDays > 0, trialEndsAt := TrialEnd(trialDays, now));
      if confirmedAt.Some? {
        next := next.(planConfirmedAt := confirmedAt);
      }
      if charge.Some? {
        if current.authorization.Suspended? { next := next.(authorization := Permitted); }
        if current.trackingAuthorization.Suspended? { next := next.(trackingAuthorization := Permitted); }
      }
      shops := shops[s := next];
    }

    /** `markSupersededCharges`. */
    method MarkSuperseded(s: ShopId, keep: ChargeId)
      modifies this`charges
      ensures charges == map k | k in old(charges) ::
        (if old(charges)[k].shop == s && (old(charges)[k].status.Active? || old(charges)[k].status.Pending?) && k != keep
         then old(charges)[k].(status := Superseded) else old(charges)[k])
    {
      charges := map k | k in charges ::
        if charges[k].shop == s && Live(charges[k]) && k != keep then charges[k].(status := Superseded) else charges[k];
    }

    /** The free plan: closes the charge it saw on the shop and moves the shop. */
    method LeaveForFree(s: ShopId, seen: Option<string>, plan: Plan, now: int)
      requires s in shops
      modifies this
      ensures Contents() == LeftForFree(old(Contents()), s, seen, plan, now)
      // The charge that was seen, if it is of this shop, is cancelled; every other row stays.
      ensures charges == map k | k in old(charges) ::
        (if seen.Some? && Decimal.AllDigits(Text.Trim(seen.value)) && k == Decimal.Value(Text.Trim(seen.value)) && old(charges)[k].shop == s
         then old(charges)[k].(status := Cancelled, cancelledAt := Some(now)) else old(charges)[k])
    {
      var id := Numeric(seen);
      if id.Some? {
        charges := WithStatus(charges, s, id.value, Cancelled, now);
      }
      ApplyPlan(s, plan, None, 0, Monthly, None, now);
    }

    method Open(id: ChargeId, s: ShopId, nonce: Nonce, plan: Plan, price: Amount, currency: Currency, cycle: Interval, trialDays: int)
      modifies this`charges
      ensures Contents() == Opened(old(Contents()), id, NewCharge(s, nonce, plan, price, currency, cycle, trialDays))
      ensures old(Contents()) != Contents() ==> CanSpendOnce(id, s, nonce)
      // A number or a nonce that is already there is refused; the new row is pending and asks what it asks.
      ensures charges == if id in old(charges) || exists k :: k in old(charges) && old(charges)[k].nonce == Some(nonce)
        then old(charges)
        else old(charges)[id := Charge(s, plan, Some(price), Some(currency), Some(cycle), Pending, trialDays, None, Some(nonce), None, None, None)]
    {
      var c := NewCharge(s, nonce, plan, price, currency, cycle, trialDays);
      if id !in charges && !NonceTaken(Contents(), nonce) {
        charges := charges[id := c];
      }
    }

    ghost predicate CanSpendOnce(id: ChargeId, s: ShopId, nonce: Nonce)
      reads this
    {
      id in charges && charges[id].shop == s && charges[id].status.Pending?
      && charges[id].nonce == Some(nonce) && charges[id].nonceUsedAt.None?
    }
  }
}
