/**
 Writing customer birthdates to Shopify in atomic batches.

 `metafieldsSet` saves a whole batch or none of it. A batch with refused entries is
 peeled: the refused ones leave it, the rest is sent again. The store is adversarial:
 it refuses what it likes, other writers touch it between calls, and a call may come
 back without saying whether it was executed.
 */
module Metafields {
  import opened Options
  import opened Decimal

  // The most entries one call accepts.
  const BATCH := 25

  datatype Entry = Entry(customer: int, date: string)

  datatype UserError = UserError(field: Option<seq<string>>, message: string, code: Option<string>)

  datatype Reply = Thrown | NullPayload | Payload(errors: seq<UserError>)

  datatype Failure = Failure(customer: int, reason: string)

  function Customers(es: seq<Entry>): (ids: seq<int>)
    ensures |ids| == |es|
    ensures forall i | 0 <= i < |es| :: ids[i] == es[i].customer
  {
    seq(|es|, i requires 0 <= i < |es| => es[i].customer)
  }

  function Refused(fs: seq<Failure>): (ids: seq<int>)
    ensures |ids| == |fs|
    ensures forall i | 0 <= i < |fs| :: ids[i] == fs[i].customer
  {
    seq(|fs|, i requires 0 <= i < |fs| => fs[i].customer)
  }

  ghost predicate Distinct(es: seq<Entry>) {
    forall i, j | 0 <= i < j < |es| :: es[i].customer != es[j].customer
  }

  // --- Reading a refusal ------------------------------------------------------

  function FirstNumber(path: seq<string>): Option<nat> {
    if path == [] then None
    else if AllDigits(path[0]) then Some(Value(path[0]))
    else FirstNumber(path[1..])
  }

  /** The position in the batch that a refusal's path names: its first numeric piece. */
  function RefusalIndex(field: Option<seq<string>>): Option<nat> {
    FirstNumber(field.GetOr([]))
  }

  /** The path Shopify sends for the i-th entry leads back to i, whatever follows the number. */
  lemma RefusalPathNamesItsEntry(i: nat, rest: seq<string>)
    ensures RefusalIndex(Some(["metafields", Numeral(i)] + rest)) == Some(i)
  {
    var path := ["metafields", Numeral(i)] + rest;
    assert path[0] == "metafields" && path[1..] == [Numeral(i)] + rest;
    assert !IsDigit(path[0][0]);
    assert path[1..][0] == Numeral(i);
    assert FirstNumber(path) == FirstNumber(path[1..]);
    NumeralRoundTrip(i);
  }

  /** The refusal is about the entry at position `i` of the batch. */
  ghost predicate Names(e: UserError, batch: seq<Entry>, i: int) {
    0 <= i < |batch| && RefusalIndex(e.field) == Some(i)
  }

  /** The refusal is about no entry in particular: the whole call was refused. */
  ghost predicate NamesNobody(e: UserError, batch: seq<Entry>) {
    RefusalIndex(e.field).None? || RefusalIndex(e.field).value >= |batch|
  }

  predicate IsStale(e: UserError) {
    e.code == Some("STALE_OBJECT") || e.code == Some("INVALID_COMPARE_DIGEST")
  }

  /** The first refusal that names the customer is the one that classifies it. */
  ghost predicate FirstNaming(errors: seq<UserError>, batch: seq<Entry>, id: int, k: int) {
    && 0 <= k < |errors|
    && (exists i :: Names(errors[k], batch, i) && batch[i].customer == id)
    && (forall h, i | 0 <= h < k && Names(errors[h], batch, i) :: batch[i].customer != id)
  }

  // --- The store ---------------------------------------------------------------

  class CustomerStore {
    var birthdates: map<int, string>
    // Customers that other writers have touched, customers of calls whose execution
    // is unknown, customers on which a call of ours replaced a value, calls made, and the
    // refusals they came back with.
    ghost var foreign: set<int>
    ghost var unsure: set<int>
    ghost var replaced: set<int>
    ghost var calls: nat
    ghost var refusals: seq<UserError>

    constructor (initial: map<int, string>)
      ensures birthdates == initial && foreign == {} && unsure == {} && replaced == {} && calls == 0 && refusals == []
    {
      birthdates := initial;
      foreign, unsure, replaced, calls, refusals := {}, {}, {}, 0, [];
    }

    /** The value of a customer is the same as it was. */
    twostate predicate Untouched(id: int)
      reads this
    {
      (id in birthdates <==> id in old(birthdates)) && (id in birthdates ==> birthdates[id] == old(birthdates)[id])
    }

    /** One call: other writers first, then the batch, whole or not at all. */
    method MetafieldsSet(batch: seq<Entry>, onlyIfAbsent: bool) returns (reply: Reply)
      requires 0 < |batch| <= 25
      modifies this
      ensures calls == old(calls) + 1
      ensures refusals == old(refusals) + if reply.Payload? then reply.errors else []
      ensures old(foreign) <= foreign
      ensures reply.Payload? ==> unsure == old(unsure)
      ensures !reply.Payload? ==> unsure == old(unsure) + set id | id in Customers(batch)
      ensures forall id | id !in foreign && id !in unsure && !(reply == Payload([]) && id in Customers(batch)) :: Untouched(id)
      ensures reply == Payload([]) ==>
        forall id | id in Customers(batch) && id !in foreign ::
          && id in birthdates
          && Entry(id, birthdates[id]) in batch
          && (onlyIfAbsent ==> id !in old(birthdates))
      ensures onlyIfAbsent ==> replaced == old(replaced)
    {
      calls := calls + 1;
      OthersWrite();
      var executed: bool := *;
      reply := *;
      var taken := exists e | e in batch :: e.customer in birthdates;
      if onlyIfAbsent && taken {
        executed := false;
        if reply == Payload([]) {
          reply := Payload([UserError(None, "the metafield is already there", Some("STALE_OBJECT"))]);
        }
      } else if reply.Payload? {
        executed := reply.errors == [];
      }
      refusals := refusals + if reply.Payload? then reply.errors else [];
      if !reply.Payload? {
        unsure := unsure + set id | id in Customers(batch);
      }
      if executed {
        replaced := replaced + set id | id in Customers(batch) && id in birthdates;
        WriteAll(batch);
      }
    }

    /** Other writers set and remove values as they like. */
    method OthersWrite()
      modifies this`birthdates, this`foreign
      ensures old(foreign) <= foreign
      ensures forall id | id !in foreign :: Untouched(id)
    {
      var wish: map<int, string> := *;
      var touched: set<int> := *;
      birthdates := map id | id in birthdates.Keys + wish.Keys
                      && (if id in touched then id in wish else id in birthdates) ::
                      if id in touched then wish[id] else birthdates[id];
      foreign := foreign + touched;
    }

    method WriteAll(batch: seq<Entry>)
      modifies this`birthdates
      ensures forall id | id !in Customers(batch) :: Untouched(id)
      ensures forall id | id in Customers(batch) :: id in birthdates && Entry(id, birthdates[id]) in batch
    {
      for k := 0 to |batch|
        invariant forall id | id !in Customers(batch[..k]) :: Untouched(id)
        invariant forall id | id in Customers(batch[..k]) :: id in birthdates && Entry(id, birthdates[id]) in batch[..k]
      {
        assert Customers(batch[..k + 1]) == Customers(batch[..k]) + [batch[k].customer];
        birthdates := birthdates[batch[k].customer := batch[k].date];
        assert batch[..k + 1] == batch[..k] + [batch[k]];
        assert batch[k] in batch[..k + 1];
      }
      assert batch[..|batch|] == batch;
    }
  }

  // --- Peeling -------------------------------------------------------------------

  function Without(batch: seq<Entry>, out: set<int>): (rest: seq<Entry>)
    ensures |rest| <= |batch|
    ensures forall e | e in rest :: e in batch && e.customer !in out
    ensures forall e | e in batch && e.customer !in out :: e in rest
  {
    if batch == [] then []
    else (if batch[0].customer in out then [] else [batch[0]]) + Without(batch[1..], out)
  }

  lemma WithoutShrinks(batch: seq<Entry>, out: set<int>, e: Entry)
    requires e in batch && e.customer in out
    ensures |Without(batch, out)| < |batch|
  {
  }

  lemma CustomersCons(e: Entry, rest: seq<Entry>)
    ensures Customers([e] + rest) == [e.customer] + Customers(rest)
    ensures multiset(Customers([e] + rest)) == multiset{e.customer} + multiset(Customers(rest))
  {
    assert Customers([e] + rest) == [e.customer] + Customers(rest);
  }

  lemma DistinctCons(batch: seq<Entry>)
    requires batch != [] && Distinct(batch)
    ensures Distinct(batch[1..])
    ensures batch[0].customer !in Customers(batch[1..])
    ensures forall e | e in batch[1..] :: e.customer != batch[0].customer
  {
    var rest := batch[1..];
    forall k | 0 <= k < |rest| ensures rest[k].customer != batch[0].customer {
      assert rest[k] == batch[k + 1];
    }
  }

  lemma SetGrows(out: set<int>, id: int)
    requires id !in out
    ensures multiset(out + {id}) == multiset(out) + multiset{id}
  {
  }

  lemma {:induction false} WithoutDistinct(batch: seq<Entry>, out: set<int>)
    requires Distinct(batch)
    ensures Distinct(Without(batch, out))
  {
    if batch != [] {
      DistinctCons(batch);
      WithoutDistinct(batch[1..], out);
      var kept := Without(batch[1..], out);
      assert forall x | x in kept :: x.customer != batch[0].customer;
      assert Without(batch, out) == kept || Without(batch, out) == [batch[0]] + kept;
    }
  }

  /** Peeling a batch of distinct customers loses nobody and repeats nobody. */
  lemma {:induction false} WithoutSplits(batch: seq<Entry>, out: set<int>)
    requires Distinct(batch) && (forall id | id in out :: id in Customers(batch))
    ensures multiset(Customers(Without(batch, out))) + multiset(out) == multiset(Customers(batch))
  {
    if batch == [] {
      assert forall id :: id in out ==> id in Customers(batch);
      assert out == {};
    } else {
      var id, rest := batch[0].customer, batch[1..];
      var less := out - {id};
      DistinctCons(batch);
      assert batch == [batch[0]] + rest;
      CustomersCons(batch[0], rest);
      forall x | x in less ensures x in Customers(rest) {
        assert x in [id] + Customers(rest);
      }
      WithoutSplits(rest, less);
      WithoutSame(rest, out, id);
      WithoutCons(batch[0], rest, out);
      SplitOneMore(batch[0], rest, Without(rest, less), out);
    }
  }

  lemma WithoutCons(e: Entry, rest: seq<Entry>, out: set<int>)
    ensures Without([e] + rest, out) == if e.customer in out then Without(rest, out) else [e] + Without(rest, out)
  {
    assert ([e] + rest)[1..] == rest;
  }

  lemma SplitOneMore(e: Entry, rest: seq<Entry>, kept: seq<Entry>, out: set<int>)
    requires multiset(Customers(kept)) + multiset(out - {e.customer}) == multiset(Customers(rest))
    ensures multiset(Customers(if e.customer in out then kept else [e] + kept)) + multiset(out)
         == multiset(Customers([e] + rest))
  {
    var id, less := e.customer, out - {e.customer};
    CustomersCons(e, rest);
    CustomersCons(e, kept);
    hide Customers;
    SetGrows(less, id);
    if id in out {
      assert out == less + {id};
    } else {
      assert out == less;
    }
  }

  lemma {:induction false} WithoutSame(batch: seq<Entry>, out: set<int>, id: int)
    requires forall e | e in batch :: e.customer != id
    ensures Without(batch, out) == Without(batch, out - {id})
  {
    if batch != [] {
      WithoutSame(batch[1..], out, id);
    }
  }

  // --- Reading the refusals of one call ------------------------------------------

  /** Who is out and why, and the reason for which the whole call was refused, if it was. */
  datatype Tally = Tally(out: set<int>, present: seq<int>, failed: seq<Failure>, whole: Option<string>)

  function Add(t: Tally, batch: seq<Entry>, e: UserError, staleIsPresent: bool): Tally {
    var index := RefusalIndex(e.field);
    if index.None? || index.value >= |batch| then t.(whole := Some(e.message))
    else
      var id := batch[index.value].customer;
      if id in t.out then t
      else if staleIsPresent && IsStale(e) then t.(out := t.out + {id}, present := t.present + [id])
      else t.(out := t.out + {id}, failed := t.failed + [Failure(id, e.message)])
  }

  function TallyOf(batch: seq<Entry>, errors: seq<UserError>, staleIsPresent: bool): Tally {
    if errors == [] then Tally({}, [], [], None)
    else Add(TallyOf(batch, errors[..|errors| - 1], staleIsPresent), batch, errors[|errors| - 1], staleIsPresent)
  }

  method ReadRefusals(batch: seq<Entry>, errors: seq<UserError>, staleIsPresent: bool)
    returns (out: set<int>, present: seq<int>, failed: seq<Failure>, whole: Option<string>)
    ensures Tally(out, present, failed, whole) == TallyOf(batch, errors, staleIsPresent)
  {
    out, present, failed, whole := {}, [], [], None;
    for n := 0 to |errors|
      invariant Tally(out, present, failed, whole) == TallyOf(batch, errors[..n], staleIsPresent)
    {
      assert errors[..n + 1][..n] == errors[..n];
      var error := errors[n];
      var index := RefusalIndex(error.field);
      if index.None? || index.value >= |batch| {
        whole := Some(error.message);
        continue;
      }
      var id := batch[index.value].customer;
      if id in out {
        continue;
      }
      out := out + {id};
      if staleIsPresent && IsStale(error) {
        present := present + [id];
      } else {
        failed := failed + [Failure(id, error.message)];
      }
    }
    assert errors[..|errors|] == errors;
  }

  /** One more refusal keeps the verdicts and those who are out in step. */
  lemma AddKeepsStep(t: Tally, batch: seq<Entry>, e: UserError, staleIsPresent: bool)
    requires multiset(t.present) + multiset(Refused(t.failed)) == multiset(t.out)
    ensures var next := Add(t, batch, e, staleIsPresent);
      multiset(next.present) + multiset(Refused(next.failed)) == multiset(next.out)
  {
    if !NamesNobody(e, batch) {
      var id := batch[RefusalIndex(e.field).value].customer;
      if id !in t.out {
        SetGrows(t.out, id);
        if !(staleIsPresent && IsStale(e)) {
          assert Refused(t.failed + [Failure(id, e.message)]) == Refused(t.failed) + [id];
        }
      }
    }
  }

  /** Everyone who is out is of the batch and gets exactly one verdict; someone always is, or the call was refused whole. */
  lemma {:induction false} OneVerdictEach(batch: seq<Entry>, errors: seq<UserError>, staleIsPresent: bool)
    ensures var t := TallyOf(batch, errors, staleIsPresent);
      && multiset(t.present) + multiset(Refused(t.failed)) == multiset(t.out)
      && (forall id | id in t.out :: id in Customers(batch))
      && (t.whole.None? && errors != [] ==> t.out != {})
      && (t.whole.Some? <==> exists k :: 0 <= k < |errors| && NamesNobody(errors[k], batch))
      && (!staleIsPresent ==> t.present == [])
  {
    if errors != [] {
      var less, e := errors[..|errors| - 1], errors[|errors| - 1];
      OneVerdictEach(batch, less, staleIsPresent);
      var t := TallyOf(batch, less, staleIsPresent);
      AddKeepsStep(t, batch, e, staleIsPresent);
      forall k | 0 <= k < |less| ensures errors[k] == less[k] {
      }
      if !NamesNobody(e, batch) {
        var i := RefusalIndex(e.field).value;
        assert Customers(batch)[i] == batch[i].customer;
      }
    }
  }

  /** The refusal says that the metafield is there already, or no longer is what it was. */
  ghost predicate SaysPresent(e: UserError) {
    e.code.Some? && (e.code.value == "STALE_OBJECT" || e.code.value == "INVALID_COMPARE_DIGEST")
  }

  ghost predicate VerdictOf(t: Tally, id: int, e: UserError, staleIsPresent: bool) {
    && (id in t.present <==> staleIsPresent && SaysPresent(e))
    && (id !in t.present ==> Failure(id, e.message) in t.failed)
  }

  /**
   The verdict on a customer is that of the first refusal that names them: present by one of
   two codes, and only when that is asked for, else failed with the text of that refusal.
   */
  lemma {:induction false} FirstRefusalDecides(batch: seq<Entry>, errors: seq<UserError>, staleIsPresent: bool, id: int)
    ensures var t := TallyOf(batch, errors, staleIsPresent);
      && (id in t.out ==> exists k :: FirstNaming(errors, batch, id, k) && VerdictOf(t, id, errors[k], staleIsPresent))
      && (id !in t.out ==> id !in t.present && forall k, i | 0 <= k < |errors| && Names(errors[k], batch, i) :: batch[i].customer != id)
  {
    if errors != [] {
      var n := |errors| - 1;
      var less, e := errors[..n], errors[n];
      FirstRefusalDecides(batch, less, staleIsPresent, id);
      var t, next := TallyOf(batch, less, staleIsPresent), TallyOf(batch, errors, staleIsPresent);
      forall k | 0 <= k < n ensures errors[k] == less[k] {
      }
      if id in t.out {
        var k :| FirstNaming(less, batch, id, k) && VerdictOf(t, id, less[k], staleIsPresent);
        assert FirstNaming(errors, batch, id, k);
      } else if id in next.out {
        var i := RefusalIndex(e.field).value;
        assert Names(e, batch, i);
        assert FirstNaming(errors, batch, id, n);
      }
    }
  }

  /** What a run of calls did to the store, seen from the customers it reports as written. */
  twostate predicate StoreFollows(store: CustomerStore, written: set<int>, entries: seq<Entry>)
    reads store
  {
    && old(store.foreign) <= store.foreign
    && old(store.unsure) <= store.unsure
    && (forall id | id !in store.foreign && id !in store.unsure && id !in written :: store.Untouched(id))
    && (forall id | id !in store.foreign && id !in store.unsure && id in written ::
          id in store.birthdates && Entry(id, store.birthdates[id]) in entries)
  }

  /** The texts of refusals. */
  function Texts(errors: seq<UserError>): (texts: seq<string>)
    ensures |texts| == |errors|
    ensures forall i | 0 <= i < |errors| :: texts[i] == errors[i].message
  {
    seq(|errors|, i requires 0 <= i < |errors| => errors[i].message)
  }

  lemma TextsAppend(a: seq<UserError>, b: seq<UserError>)
    ensures Texts(a + b) == Texts(a) + Texts(b)
  {
  }

  function FailAll(es: seq<Entry>, reason: string): (failed: seq<Failure>)
    ensures Refused(failed) == Customers(es)
  {
    seq(|es|, i requires 0 <= i < |es| => Failure(es[i].customer, reason))
  }

  /** What one call settles: the entries still to send, and the verdicts it gave. */
  datatype Round = Round(rest: seq<Entry>, written: seq<int>, present: seq<int>, failed: seq<Failure>)

  /** How a reply that is not an exception is read. */
  function RoundOf(batch: seq<Entry>, errors: seq<UserError>, staleIsPresent: bool): Round {
    if errors == [] then Round([], Customers(batch), [], [])
    else
      var t := TallyOf(batch, errors, staleIsPresent);
      match t.whole
      case Some(reason) => Round([], [], t.present, t.failed + FailAll(Without(batch, t.out), reason))
      case None => Round(Without(batch, t.out), [], t.present, t.failed)
  }

  function Verdicts(written: seq<int>, present: seq<int>, failed: seq<Failure>): multiset<int> {
    multiset(written) + (multiset(present) + multiset(Refused(failed)))
  }

  /** The verdicts and the entries still to send hold every customer of a batch exactly once. */
  ghost predicate Accounts(batch: seq<Entry>, r: Round) {
    multiset(Customers(batch)) == multiset(Customers(r.rest)) + Verdicts(r.written, r.present, r.failed)
  }

  /** For a batch of distinct customers, each round loses nobody and judges nobody twice. */
  lemma RoundAccounts(batch: seq<Entry>, errors: seq<UserError>, staleIsPresent: bool)
    requires Distinct(batch)
    ensures Accounts(batch, RoundOf(batch, errors, staleIsPresent))
  {
    if errors != [] {
      var t := TallyOf(batch, errors, staleIsPresent);
      OneVerdictEach(batch, errors, staleIsPresent);
      WithoutSplits(batch, t.out);
      var kept := Without(batch, t.out);
      hide Without, TallyOf, Customers, Refused, Accounts;
      PeelAccounts(batch, kept, t);
      if t.whole.Some? {
        WholeRefusalAccounts(kept, t.present, t.failed, t.whole.value);
        AccountsEither(batch, kept, t.present, t.failed, t.failed + FailAll(kept, t.whole.value));
      }
    }
  }

  lemma PeelAccounts(batch: seq<Entry>, kept: seq<Entry>, t: Tally)
    requires multiset(Customers(kept)) + multiset(t.out) == multiset(Customers(batch))
    requires multiset(t.present) + multiset(Refused(t.failed)) == multiset(t.out)
    ensures Accounts(batch, Round(kept, [], t.present, t.failed))
  {
    hide Customers, Refused;
    var none: seq<int> := [];
    assert multiset(none) == multiset{};
    assert Verdicts(none, t.present, t.failed) == multiset(t.out);
  }

  lemma AccountsEither(batch: seq<Entry>, kept: seq<Entry>, present: seq<int>, failed: seq<Failure>, all: seq<Failure>)
    requires Accounts(batch, Round(kept, [], present, failed))
    requires multiset(Customers(kept)) + Verdicts([], present, failed) == multiset(Customers([])) + Verdicts([], present, all)
    ensures Accounts(batch, Round([], [], present, all))
  {
    hide Customers, Verdicts;
  }

  lemma WholeRefusalAccounts(kept: seq<Entry>, present: seq<int>, failed: seq<Failure>, reason: string)
    ensures multiset(Customers(kept)) + Verdicts([], present, failed)
         == multiset(Customers([])) + Verdicts([], present, failed + FailAll(kept, reason))
  {
    assert Refused(failed + FailAll(kept, reason)) == Refused(failed) + Customers(kept);
  }

  lemma VerdictsAddUp(w: seq<int>, p: seq<int>, f: seq<Failure>, v: seq<int>, q: seq<int>, g: seq<Failure>)
    ensures Verdicts(w + v, p + q, f + g) == Verdicts(w, p, f) + Verdicts(v, q, g)
  {
    assert Refused(f + g) == Refused(f) + Refused(g);
    assert multiset(w + v) == multiset(w) + multiset(v);
    assert multiset(p + q) == multiset(p) + multiset(q);
    assert multiset(Refused(f) + Refused(g)) == multiset(Refused(f)) + multiset(Refused(g));
  }

  /** The rounds of a batch add up. */
  lemma RoundsCompose(entries: seq<Entry>, batch: seq<Entry>, present: seq<int>, failed: seq<Failure>, r: Round)
    requires Accounts(entries, Round(batch, [], present, failed)) && Accounts(batch, r)
    ensures Accounts(entries, Round(r.rest, r.written, present + r.present, failed + r.failed))
  {
    VerdictsAddUp([], present, failed, r.written, r.present, r.failed);
    assert [] + r.written == r.written;
    hide Verdicts;
  }

  /** Each round either ends the batch or sends a strictly shorter part of it. */
  lemma RoundShrinks(batch: seq<Entry>, errors: seq<UserError>, staleIsPresent: bool)
    requires batch != []
    ensures var r := RoundOf(batch, errors, staleIsPresent);
      && |r.rest| < |batch|
      && (forall e | e in r.rest :: e in batch)
      && (r.rest != [] ==> r.written == [])
      && (Distinct(batch) ==> Distinct(r.rest))
      && (!staleIsPresent ==> r.present == [])
  {
    if errors != [] {
      OneVerdictEach(batch, errors, staleIsPresent);
      var t := TallyOf(batch, errors, staleIsPresent);
      if t.whole.None? {
        var someone :| someone in t.out;
        var k :| 0 <= k < |batch| && Customers(batch)[k] == someone;
        WithoutShrinks(batch, t.out, batch[k]);
        if Distinct(batch) { WithoutDistinct(batch, t.out); }
      }
    }
  }

  /** One call and the reading of its reply. */
  method SendOnce(store: CustomerStore, batch: seq<Entry>, onlyIfAbsent: bool) returns (thrown: bool, r: Round, errors: seq<UserError>)
    requires 0 < |batch| <= BATCH
    modifies store
    ensures store.calls == old(store.calls) + 1
    ensures store.refusals == old(store.refusals) + errors
    ensures !thrown ==> r == RoundOf(batch, errors, onlyIfAbsent)
    ensures thrown ==> r == Round([], [], [], []) && store.refusals == old(store.refusals)
    ensures StoreFollows(store, (set id | id in r.written), batch)
    ensures onlyIfAbsent ==> store.replaced == old(store.replaced)
    ensures onlyIfAbsent ==>
      forall id | id in r.written && id !in store.foreign && id !in store.unsure :: id !in old(store.birthdates)
  {
    var reply := store.MetafieldsSet(batch, onlyIfAbsent);
    if reply.Thrown? {
      return true, Round([], [], [], []), [];
    }
    thrown := false;
    errors := if reply.NullPayload? then [] else reply.errors;
    if |errors| == 0 {
      r := Round([], Customers(batch), [], []);
      return;
    }
    var out, present, failed, whole := ReadRefusals(batch, errors, onlyIfAbsent);
    if whole.Some? {
      r := Round([], [], present, failed + FailAll(Without(batch, out), whole.value));
    } else {
      r := Round(Without(batch, out), [], present, failed);
    }
  }

  // --- A batch and a whole call, as functions of the replies ----------------------

  /** Where a batch stands after some replies. */
  function After(batch: seq<Entry>, replies: seq<seq<UserError>>, staleIsPresent: bool): Round {
    if replies == [] then Round(batch, [], [], [])
    else
      var s, n := After(batch, replies[..|replies| - 1], staleIsPresent), |replies| - 1;
      if s.rest == [] then s
      else
        var r := RoundOf(s.rest, replies[n], staleIsPresent);
        Round(r.rest, s.written + r.written, s.present + r.present, s.failed + r.failed)
  }

  lemma AtFirst(batch: seq<Entry>, staleIsPresent: bool)
    ensures After(batch, [], staleIsPresent) == Round(batch, [], [], [])
    ensures Flatten<UserError>([]) == []
  {
  }

  lemma AfterSnoc(batch: seq<Entry>, replies: seq<seq<UserError>>, errors: seq<UserError>, staleIsPresent: bool)
    ensures var s := After(batch, replies, staleIsPresent);
      After(batch, replies + [errors], staleIsPresent) ==
      if s.rest == [] then s
      else
        var r := RoundOf(s.rest, errors, staleIsPresent);
        Round(r.rest, s.written + r.written, s.present + r.present, s.failed + r.failed)
  {
    assert (replies + [errors])[..|replies|] == replies;
  }

  lemma {:induction false} AfterAccounts(batch: seq<Entry>, replies: seq<seq<UserError>>, staleIsPresent: bool)
    requires Distinct(batch)
    ensures var s := After(batch, replies, staleIsPresent);
      && Accounts(batch, s)
      && Distinct(s.rest)
      && (s.rest != [] ==> s.written == [])
  {
    if replies != [] {
      var n := |replies| - 1;
      AfterAccounts(batch, replies[..n], staleIsPresent);
      var s := After(batch, replies[..n], staleIsPresent);
      if s.rest != [] {
        RoundShrinks(s.rest, replies[n], staleIsPresent);
        RoundAccounts(s.rest, replies[n], staleIsPresent);
        RoundsCompose(batch, s.rest, s.present, s.failed, RoundOf(s.rest, replies[n], staleIsPresent));
      }
    }
  }

  function Cut(entries: seq<Entry>, k: nat): (i: nat)
    ensures i <= |entries|
  {
    if BATCH * k <= |entries| then BATCH * k else |entries|
  }

  /** The part of a list that makes up its batch number k. */
  function Chunk(entries: seq<Entry>, k: nat): (chunk: seq<Entry>)
    ensures |chunk| <= BATCH
  {
    entries[Cut(entries, k)..Cut(entries, k + 1)]
  }

  /** Nobody is listed twice within one batch. */
  ghost predicate ChunksDistinct(entries: seq<Entry>) {
    forall i, j | 0 <= i < j < |entries| && i / 25 == j / 25 :: entries[i].customer != entries[j].customer
  }

  lemma ChunkIsDistinct(entries: seq<Entry>, k: nat)
    requires ChunksDistinct(entries)
    ensures Distinct(Chunk(entries, k))
  {
    var chunk, from := Chunk(entries, k), Cut(entries, k);
    forall i, j | 0 <= i < j < |chunk| ensures chunk[i].customer != chunk[j].customer {
      assert (from + i) / BATCH == (from + j) / BATCH == k;
      assert entries[from + i].customer != entries[from + j].customer;
    }
  }

  /** What the replies to the calls of each batch settle between them. */
  function Sent(entries: seq<Entry>, replies: seq<seq<seq<UserError>>>, staleIsPresent: bool): (r: Round)
    ensures r.rest == []
  {
    if replies == [] then Round([], [], [], [])
    else
      var n := |replies| - 1;
      Join(Sent(entries, replies[..n], staleIsPresent), After(Chunk(entries, n), replies[n], staleIsPresent))
  }

  function Join(done: Round, r: Round): Round {
    Round([], done.written + r.written, done.present + r.present, done.failed + r.failed)
  }

  lemma SentSnoc(entries: seq<Entry>, replies: seq<seq<seq<UserError>>>, more: seq<seq<UserError>>, staleIsPresent: bool)
    ensures Sent(entries, replies + [more], staleIsPresent)
         == Join(Sent(entries, replies, staleIsPresent), After(Chunk(entries, |replies|), more, staleIsPresent))
  {
    assert (replies + [more])[..|replies|] == replies;
  }

  /** The replies bring every batch to its end. */
  ghost predicate Settled(entries: seq<Entry>, replies: seq<seq<seq<UserError>>>, staleIsPresent: bool) {
    && |entries| <= BATCH * |replies|
    && (forall k: nat | k < |replies| :: After(Chunk(entries, k), replies[k], staleIsPresent).rest == [])
  }

  function Flatten<T>(parts: seq<seq<T>>): seq<T> {
    if parts == [] then [] else Flatten(parts[..|parts| - 1]) + parts[|parts| - 1]
  }

  lemma FlattenSnoc<T>(a: seq<seq<T>>, x: seq<T>)
    ensures Flatten(a + [x]) == Flatten(a) + x
  {
    assert (a + [x])[..|a|] == a;
  }

  lemma {:induction false} FlattenAppend<T>(a: seq<seq<T>>, b: seq<seq<T>>)
    ensures Flatten(a + b) == Flatten(a) + Flatten(b)
  {
    if b == [] {
      assert a + b == a;
    } else {
      hide Flatten;
      var less, last := b[..|b| - 1], b[|b| - 1];
      FlattenAppend(a, less);
      FlattenSnoc(a + less, last);
      FlattenSnoc(less, last);
      assert b == less + [last];
      assert a + b == (a + less) + [last];
    }
  }

  lemma FlattenTwiceSnoc(replies: seq<seq<seq<UserError>>>, more: seq<seq<UserError>>)
    ensures Flatten(Flatten(replies + [more])) == Flatten(Flatten(replies)) + Flatten(more)
  {
    FlattenSnoc(replies, more);
    FlattenAppend(Flatten(replies), more);
  }

  // --- The methods -----------------------------------------------------------------

  /** One batch of `fillCustomerBirthdatesIfAbsent`: send, peel the refused, send the rest. */
  method FillBatch(store: CustomerStore, entries: seq<Entry>)
    returns (thrown: bool, r: Round, ghost replies: seq<seq<UserError>>)
    requires |entries| <= BATCH
    modifies store
    ensures r == After(entries, replies, true).(rest := [])
    ensures store.refusals == old(store.refusals) + Flatten(replies)
    ensures !thrown ==> After(entries, replies, true).rest == []
    ensures store.calls <= old(store.calls) + |entries|
    ensures !thrown && Distinct(entries) ==> Accounts(entries, r)
    ensures StoreFollows(store, (set id | id in r.written), entries)
    ensures store.replaced == old(store.replaced)
    ensures forall id | id in r.written && id !in store.foreign && id !in store.unsure :: id !in old(store.birthdates)
  {
    AtFirst(entries, true);
    hide After, RoundOf, Accounts, Distinct, Flatten;
    var written, present, failed := [], [], [];
    var batch := entries;
    replies := [];
    while |batch| > 0
      invariant |batch| <= |entries|
      invariant forall e | e in batch :: e in entries
      invariant Round(batch, written, present, failed) == After(entries, replies, true)
      invariant store.refusals == old(store.refusals) + Flatten(replies)
      invariant store.calls + |batch| <= old(store.calls) + |entries|
      invariant batch != [] ==> written == []
      invariant StoreFollows(store, (set id | id in written), entries)
      invariant store.replaced == old(store.replaced)
      invariant forall id | id in written && id !in store.foreign && id !in store.unsure :: id !in old(store.birthdates)
    {
      var stopped, round, errors := SendOnce(store, batch, true);
      if stopped {
        return true, Round([], written, present, failed), replies;
      }
      RoundShrinks(batch, errors, true);
      AfterSnoc(entries, replies, errors, true);
      FlattenSnoc(replies, errors);
      replies := replies + [errors];
      written, present, failed, batch := round.written, present + round.present, failed + round.failed, round.rest;
    }
    if Distinct(entries) {
      AfterAccounts(entries, replies, true);
    }
    return false, Round([], written, present, failed), replies;
  }

  lemma AccountsWhenDone(es: seq<Entry>, r: Round)
    requires r.rest == []
    ensures Accounts(es, r) <==> multiset(Customers(es)) == Verdicts(r.written, r.present, r.failed)
  {
    hide Verdicts;
    assert multiset(Customers([])) == multiset{};
  }

  lemma CustomersAppend(a: seq<Entry>, b: seq<Entry>)
    ensures multiset(Customers(a + b)) == multiset(Customers(a)) + multiset(Customers(b))
  {
    assert Customers(a + b) == Customers(a) + Customers(b);
  }

  lemma ChunkAccounts(sent: seq<Entry>, chunk: seq<Entry>, done: Round, r: Round)
    requires done.rest == [] && r.rest == []
    ensures Accounts(sent, done) ==> (Accounts(sent + chunk, Join(done, r)) <==> Accounts(chunk, r))
    ensures Accounts(chunk, r) ==> (Accounts(sent + chunk, Join(done, r)) <==> Accounts(sent, done))
  {
    AccountsWhenDone(sent, done);
    AccountsWhenDone(chunk, r);
    AccountsWhenDone(sent + chunk, Join(done, r));
    CustomersAppend(sent, chunk);
    VerdictsAddUp(done.written, done.present, done.failed, r.written, r.present, r.failed);
    hide Accounts, Verdicts, Customers;
    SumsCancel(multiset(Customers(sent)), multiset(Customers(chunk)),
               Verdicts(done.written, done.present, done.failed), Verdicts(r.written, r.present, r.failed));
  }

  lemma SumsCancel(a: multiset<int>, b: multiset<int>, c: multiset<int>, d: multiset<int>)
    ensures a == c ==> (a + b == c + d <==> b == d)
    ensures b == d ==> (a + b == c + d <==> a == c)
  {
    if a + b == c + d {
      assert forall x :: a[x] + b[x] == (a + b)[x] == (c + d)[x] == c[x] + d[x];
      assert a == c ==> b == d;
      assert b == d ==> a == c;
    }
  }

  lemma NothingYet(entries: seq<Entry>, staleIsPresent: bool)
    ensures Cut(entries, 0) == 0 && Sent(entries, [], staleIsPresent) == Round([], [], [], [])
    ensures Flatten(Flatten<seq<UserError>>([])) == []
  {
    assert Flatten<seq<UserError>>([]) == [];
  }

  lemma CutGrows(entries: seq<Entry>, k: nat)
    ensures entries[..Cut(entries, k + 1)] == entries[..Cut(entries, k)] + Chunk(entries, k)
    ensures forall e | e in Chunk(entries, k) :: e in entries
    ensures Chunk(entries, k) == entries[Cut(entries, k)..Cut(entries, k + 1)]
    ensures var i := Cut(entries, k);
      i < |entries| ==> Cut(entries, k + 1) == if i + BATCH <= |entries| then i + BATCH else |entries|
    ensures Cut(entries, k) == |entries| ==> |entries| <= BATCH * k
  {
  }

  /** The batches of a call add up. */
  lemma {:induction false} CallAccounts(entries: seq<Entry>, replies: seq<seq<seq<UserError>>>, staleIsPresent: bool)
    requires forall k: nat | k < |replies| ::
      var s := After(Chunk(entries, k), replies[k], staleIsPresent);
      s.rest == [] && Accounts(Chunk(entries, k), s)
    ensures Accounts(entries[..Cut(entries, |replies|)], Sent(entries, replies, staleIsPresent))
  {
    if replies != [] {
      var n := |replies| - 1;
      CallAccounts(entries, replies[..n], staleIsPresent);
      CutGrows(entries, n);
      ChunkAccounts(entries[..Cut(entries, n)], Chunk(entries, n), Sent(entries, replies[..n], staleIsPresent),
                    After(Chunk(entries, n), replies[n], staleIsPresent));
    }
  }

  /** No customer is lost or judged twice, unless one is listed twice within one batch. */
  lemma {:induction false} SettledAccounts(entries: seq<Entry>, replies: seq<seq<seq<UserError>>>, staleIsPresent: bool)
    requires ChunksDistinct(entries) && Settled(entries, replies, staleIsPresent)
    ensures Accounts(entries, Sent(entries, replies, staleIsPresent))
  {
    forall k: nat | k < |replies|
      ensures Accounts(Chunk(entries, k), After(Chunk(entries, k), replies[k], staleIsPresent))
    {
      ChunkIsDistinct(entries, k);
      AfterAccounts(Chunk(entries, k), replies[k], staleIsPresent);
    }
    CallAccounts(entries, replies, staleIsPresent);
    assert entries[..|entries|] == entries;
  }

  /**
   `fillCustomerBirthdatesIfAbsent`, against any store. If nobody is listed twice within
   one batch, every entry ends up written, present or failed, once. No value is ever
   replaced. Apart from customers touched by others, or sent in a call that never said
   what it did, the store changes exactly at the written ones, which had no value before.
   */
  method FillIfAbsent(store: CustomerStore, entries: seq<Entry>)
    returns (thrown: bool, r: Round, ghost replies: seq<seq<seq<UserError>>>)
    modifies store
    ensures r == Sent(entries, replies, true)
    ensures store.refusals == old(store.refusals) + Flatten(Flatten(replies))
    ensures !thrown ==> Settled(entries, replies, true)
    ensures store.calls <= old(store.calls) + |entries|
    ensures !thrown && ChunksDistinct(entries) ==> Accounts(entries, r)
    ensures StoreFollows(store, (set id | id in r.written), entries)
    ensures store.replaced == old(store.replaced)
    ensures forall id | id in r.written && id !in store.foreign && id !in store.unsure :: id !in old(store.birthdates)
  {
    NothingYet(entries, true);
    hide Accounts, Distinct, ChunksDistinct, After, Chunk, Cut, Flatten, Texts, Sent, RoundOf, TallyOf, Without, Verdicts, Customers;
    r, replies := Round([], [], [], []), [];
    var i := 0;
    while i < |entries|
      invariant i == Cut(entries, |replies|)
      invariant r == Sent(entries, replies, true)
      invariant store.refusals == old(store.refusals) + Flatten(Flatten(replies))
      invariant forall k: nat | k < |replies| :: After(Chunk(entries, k), replies[k], true).rest == []
      invariant store.calls <= old(store.calls) + i
      invariant StoreFollows(store, (set id | id in r.written), entries)
      invariant store.replaced == old(store.replaced)
      invariant forall id | id in r.written && id !in store.foreign && id !in store.unsure :: id !in old(store.birthdates)
    {
      var next := if i + BATCH <= |entries| then i + BATCH else |entries|;
      var chunk := entries[i..next];
      CutGrows(entries, |replies|);
      var stopped, done, answers := FillBatch(store, chunk);
      SentSnoc(entries, replies, answers, true);
      FlattenTwiceSnoc(replies, answers);
      r, replies := Join(r, done), replies + [answers];
      if stopped {
        return true, r, replies;
      }
      i := next;
    }
    thrown := false;
    CutGrows(entries, |replies|);
    if ChunksDistinct(entries) {
      SettledAccounts(entries, replies, true);
    }
  }

  /**
   `setCustomerBirthdates`: the same peeling, without the guard on values already there.
   The messages are the texts of all the refusals, in the order in which they came back.
   */
  method SetBirthdates(store: CustomerStore, entries: seq<Entry>)
    returns (thrown: bool, written: nat, messages: seq<string>, failed: seq<Failure>,
             ghost r: Round, ghost replies: seq<seq<seq<UserError>>>)
    modifies store
    ensures r == Sent(entries, replies, false)
    ensures store.refusals == old(store.refusals) + Flatten(Flatten(replies))
    ensures !thrown ==> Settled(entries, replies, false)
    ensures r.present == [] && written == |r.written| && failed == r.failed
    ensures messages == Texts(Flatten(Flatten(replies)))
    ensures store.calls <= old(store.calls) + |entries|
    ensures !thrown && ChunksDistinct(entries) ==> Accounts(entries, r)
    ensures StoreFollows(store, (set id | id in r.written), entries)
  {
    NothingYet(entries, false);
    hide Accounts, Distinct, ChunksDistinct, After, Chunk, Cut, Flatten, Texts, Sent, RoundOf, TallyOf, Without, Verdicts, Customers;
    r, replies := Round([], [], [], []), [];
    written, messages, failed := 0, [], [];
    var i := 0;
    while i < |entries|
      invariant i == Cut(entries, |replies|)
      invariant r == Sent(entries, replies, false)
      invariant r.present == [] && written == |r.written| && failed == r.failed
      invariant store.refusals == old(store.refusals) + Flatten(Flatten(replies))
      invariant messages == Texts(Flatten(Flatten(replies)))
      invariant forall k: nat | k < |replies| :: After(Chunk(entries, k), replies[k], false).rest == []
      invariant store.calls <= old(store.calls) + i
      invariant StoreFollows(store, (set id | id in r.written), entries)
    {
      var next := if i + BATCH <= |entries| then i + BATCH else |entries|;
      var chunk := entries[i..next];
      CutGrows(entries, |replies|);
      var stopped, more, done, answers := SetBatch(store, chunk);
      SentSnoc(entries, replies, answers, false);
      FlattenTwiceSnoc(replies, answers);
      TextsAppend(Flatten(Flatten(replies)), Flatten(answers));
      r, replies := Join(r, done), replies + [answers];
      written, messages, failed := written + |done.written|, messages + more, failed + done.failed;
      if stopped {
        return true, written, messages, failed, r, replies;
      }
      i := next;
    }
    thrown := false;
    CutGrows(entries, |replies|);
    if ChunksDistinct(entries) {
      SettledAccounts(entries, replies, false);
    }
  }

  method SetBatch(store: CustomerStore, entries: seq<Entry>)
    returns (thrown: bool, messages: seq<string>, r: Round, ghost replies: seq<seq<UserError>>)
    requires |entries| <= BATCH
    modifies store
    ensures r == After(entries, replies, false).(rest := []) && r.present == []
    ensures store.refusals == old(store.refusals) + Flatten(replies)
    ensures !thrown ==> After(entries, replies, false).rest == []
    ensures messages == Texts(Flatten(replies))
    ensures store.calls <= old(store.calls) + |entries|
    ensures !thrown && Distinct(entries) ==> Accounts(entries, r)
    ensures StoreFollows(store, (set id | id in r.written), entries)
  {
    AtFirst(entries, false);
    hide After, RoundOf, Accounts, Distinct, Flatten, Texts;
    var written, failed := [], [];
    messages, replies := [], [];
    var batch := entries;
    while |batch| > 0
      invariant |batch| <= |entries|
      invariant forall e | e in batch :: e in entries
      invariant Round(batch, written, [], failed) == After(entries, replies, false)
      invariant store.refusals == old(store.refusals) + Flatten(replies)
      invariant messages == Texts(Flatten(replies))
      invariant store.calls + |batch| <= old(store.calls) + |entries|
      invariant batch != [] ==> written == []
      invariant StoreFollows(store, (set id | id in written), entries)
    {
      var stopped, round, errors := SendOnce(store, batch, false);
      if stopped {
        return true, messages, Round([], written, [], failed), replies;
      }
      RoundShrinks(batch, errors, false);
      AfterSnoc(entries, replies, errors, false);
      FlattenSnoc(replies, errors);
      TextsAppend(Flatten(replies), errors);
      replies := replies + [errors];
      messages := messages + Texts(errors);
      written, failed, batch := round.written, failed + round.failed, round.rest;
    }
    if Distinct(entries) {
      AfterAccounts(entries, replies, false);
    }
    return false, messages, Round([], written, [], failed), replies;
  }

  lemma OccursTwice(ids: seq<int>, i: nat, j: nat)
    requires i < j < |ids| && ids[i] == ids[j]
    ensures multiset(ids)[ids[i]] >= 2
  {
    var id := ids[i];
    assert ids == ids[..j] + ids[j..];
    assert multiset(ids) == multiset(ids[..j]) + multiset(ids[j..]);
    assert id in ids[..j] by { assert ids[..j][i] == id; }
    assert id in ids[j..] by { assert ids[j..][0] == id; }
  }

  function Refusal(i: nat): UserError {
    UserError(Some([Numeral(i)]), "", None)
  }

  lemma OneTally(batch: seq<Entry>, i: nat, staleIsPresent: bool)
    requires i < |batch|
    ensures var id := batch[i].customer;
      TallyOf(batch, [Refusal(i)], staleIsPresent) == Tally({id}, [], [Failure(id, "")], None)
  {
    NumeralRoundTrip(i);
    assert RefusalIndex(Refusal(i).field) == Some(i);
    hide RefusalIndex;
    var e := Refusal(i);
    assert !IsStale(e) && e.message == "";
    assert [e][..0] == [];
    assert {} + {batch[i].customer} == {batch[i].customer};
  }

  lemma OneRefusal(batch: seq<Entry>, i: nat, staleIsPresent: bool)
    requires i < |batch|
    ensures var id := batch[i].customer;
      RoundOf(batch, [Refusal(i)], staleIsPresent) == Round(Without(batch, {id}), [], [], [Failure(id, "")])
  {
    hide Without, TallyOf, Refusal;
    OneTally(batch, i, staleIsPresent);
  }

  lemma TwinsCountTwice(batch: seq<Entry>, i: nat, j: nat, kept: seq<Entry>, failed: seq<Failure>)
    requires i < j < |batch| && batch[i].customer == batch[j].customer
    requires forall e | e in kept :: e.customer != batch[i].customer
    requires |failed| == 1
    ensures !Accounts(batch, Round([], Customers(kept), [], failed))
  {
    var id := batch[i].customer;
    OccursTwice(Customers(batch), i, j);
    assert id !in Customers(kept);
    assert multiset(Customers(kept))[id] == 0;
    assert Refused(failed) == [failed[0].customer];
    assert multiset(Refused(failed))[id] <= 1;
    hide Customers, Refused;
    AccountsWhenDone(batch, Round([], Customers(kept), [], failed));
  }

  /** A customer listed twice in a batch and refused once gets one verdict for two entries. */
  lemma TwinsShareAVerdict(batch: seq<Entry>, i: nat, j: nat, staleIsPresent: bool)
    requires i < j < |batch| && batch[i].customer == batch[j].customer
    ensures var s := After(batch, [[Refusal(i)], []], staleIsPresent);
      s.rest == [] && !Accounts(batch, s)
  {
    var id := batch[i].customer;
    hide After, RoundOf, Without, Accounts, Refusal;
    OneRefusal(batch, i, staleIsPresent);
    AfterOneThenAll(batch, [Refusal(i)], staleIsPresent);
    TwinsCountTwice(batch, i, j, Without(batch, {id}), [Failure(id, "")]);
  }

  /** One reply with refusals, and the rest is taken. */
  lemma AfterOneThenAll(batch: seq<Entry>, errors: seq<UserError>, staleIsPresent: bool)
    requires batch != [] && RoundOf(batch, errors, staleIsPresent).written == []
    ensures var r := RoundOf(batch, errors, staleIsPresent);
      After(batch, [errors, []], staleIsPresent) == Round([], Customers(r.rest), r.present, r.failed)
  {
    AfterOne(batch, errors, staleIsPresent);
    AfterSnoc(batch, [errors], [], staleIsPresent);
    assert [errors] + [[]] == [errors, []];
    var r := RoundOf(batch, errors, staleIsPresent);
    hide After, RoundOf;
    assert r.rest == [] ==> Customers(r.rest) == [];
  }

  lemma AfterOne(batch: seq<Entry>, errors: seq<UserError>, staleIsPresent: bool)
    requires batch != []
    ensures After(batch, [errors], staleIsPresent) == RoundOf(batch, errors, staleIsPresent)
  {
    var none: seq<seq<UserError>> := [];
    AfterSnoc(batch, none, errors, staleIsPresent);
    assert none + [errors] == [errors];
  }

  lemma AllTaken(batch: seq<Entry>, staleIsPresent: bool)
    ensures var s := After(batch, [[]], staleIsPresent); s.rest == [] && Accounts(batch, s)
  {
    var none: seq<seq<UserError>> := [];
    AfterSnoc(batch, none, [], staleIsPresent);
    assert none + [[]] == [[]];
  }

  /** Every batch is taken at once, but for one refusal in batch number k. */
  function RefusedAt(n: nat, k: nat, i: nat): (replies: seq<seq<seq<UserError>>>)
    ensures |replies| == n
    ensures forall m: nat | m < n :: replies[m] == if m == k then [[Refusal(i)], []] else [[]]
  {
    seq(n, m => if m == k then [[Refusal(i)], []] else [[]])
  }

  /** The verdict lost in one batch is not made up for by the others. */
  lemma {:induction false} LossStays(entries: seq<Entry>, n: nat, k: nat, i: nat, staleIsPresent: bool)
    requires k < n
    ensures var s := After(Chunk(entries, k), [[Refusal(i)], []], staleIsPresent);
      s.rest == [] && !Accounts(Chunk(entries, k), s) ==>
      !Accounts(entries[..Cut(entries, n)], Sent(entries, RefusedAt(n, k, i), staleIsPresent))
  {
    hide After, Accounts, Chunk, Join;
    var lost := After(Chunk(entries, k), [[Refusal(i)], []], staleIsPresent);
    if lost.rest == [] && !Accounts(Chunk(entries, k), lost) {
      var m := n - 1;
      var replies, before := RefusedAt(n, k, i), RefusedAt(m, k, i);
      assert replies == before + [replies[m]];
      SentSnoc(entries, before, replies[m], staleIsPresent);
      CutGrows(entries, m);
      var sent, chunk := entries[..Cut(entries, m)], Chunk(entries, m);
      var done, r := Sent(entries, before, staleIsPresent), After(chunk, replies[m], staleIsPresent);
      if m == k {
        forall q: nat | q < m ensures before[q] == [[]] {
        }
        forall q: nat | q < m
          ensures var s := After(Chunk(entries, q), before[q], staleIsPresent); s.rest == [] && Accounts(Chunk(entries, q), s)
        {
          AllTaken(Chunk(entries, q), staleIsPresent);
        }
        CallAccounts(entries, before, staleIsPresent);
      } else {
        LossStays(entries, m, k, i, staleIsPresent);
        AllTaken(chunk, staleIsPresent);
      }
      ChunkAccounts(sent, chunk, done, r);
    }
  }

  /**
   A whole call gives every entry exactly one verdict, whatever is refused, exactly when
   no customer is listed twice within one batch. It is so with the guard on values
   already there and without it.
   */
  lemma VerdictsAreExact(entries: seq<Entry>, staleIsPresent: bool)
    ensures (forall replies :: Settled(entries, replies, staleIsPresent) ==> Accounts(entries, Sent(entries, replies, staleIsPresent)))
       <==> ChunksDistinct(entries)
  {
    if ChunksDistinct(entries) {
      forall replies | Settled(entries, replies, staleIsPresent)
        ensures Accounts(entries, Sent(entries, replies, staleIsPresent))
      {
        SettledAccounts(entries, replies, staleIsPresent);
      }
    } else {
      var i, j :| 0 <= i < j < |entries| && i / BATCH == j / BATCH && entries[i].customer == entries[j].customer;
      LosesCount(entries, i, j, staleIsPresent);
    }
  }

  lemma InChunk(entries: seq<Entry>, i: nat)
    requires i < |entries|
    ensures i % BATCH < |Chunk(entries, i / BATCH)| && Chunk(entries, i / BATCH)[i % BATCH] == entries[i]
  {
  }

  lemma AllOf(entries: seq<Entry>)
    ensures entries[..Cut(entries, |entries|)] == entries
    ensures |entries| <= BATCH * |entries|
  {
  }

  lemma LosesCount(entries: seq<Entry>, i: nat, j: nat, staleIsPresent: bool)
    requires i < j < |entries| && i / BATCH == j / BATCH && entries[i].customer == entries[j].customer
    ensures exists replies :: Settled(entries, replies, staleIsPresent) && !Accounts(entries, Sent(entries, replies, staleIsPresent))
  {
    var n, k := |entries|, i / BATCH;
    var chunk, at, other := Chunk(entries, k), i % BATCH, j % BATCH;
    assert i == BATCH * k + at && j == BATCH * k + other;
    InChunk(entries, i);
    InChunk(entries, j);
    hide Chunk, After, Accounts, Sent, Cut;
    TwinsShareAVerdict(chunk, at, other, staleIsPresent);
    var replies := RefusedAt(n, k, at);
    LossStays(entries, n, k, at, staleIsPresent);
    AllOf(entries);
    forall q: nat | q < n ensures After(Chunk(entries, q), replies[q], staleIsPresent).rest == [] {
      AllTaken(Chunk(entries, q), staleIsPresent);
    }
  }

  /** One more entry than a batch holds, the last of the same customer as the first. */
  lemma ListedInTwoBatches(entries: seq<Entry>)
    requires |entries| == 26 && Distinct(entries[..25]) && entries[25].customer == entries[0].customer
    ensures ChunksDistinct(entries) && !Distinct(entries)
  {
    forall i, j | 0 <= i < j < |entries| && i / BATCH == j / BATCH ensures entries[i].customer != entries[j].customer {
      assert j < BATCH;
      assert entries[..BATCH][i] == entries[i] && entries[..BATCH][j] == entries[j];
    }
  }
}
