# Verification models of the Kerdon app

Dafny models of the parts of the app whose correctness rests on interleavings, on recovery
after a failure, or on a text keeping its meaning. `dafny verify dfyconfig.toml` checks
all of them.

| file | what it models |
|---|---|
| `TokenRenewal.dfy`, `TokenMechanisms.dfy` | N requests on M instances renewing one rotating Supabase token: the in-process map, the guarded update that doubles as a lease, the polling waiters, the re-read after a failure |
| `Metafields.dfy` | atomic batches of birthdates sent to Shopify, peeled of the refused entries and sent again, against an adversarial store |
| `Connections.dfy` | draining nested connections page by page, the bit that allows a deletion by difference, and the writing of an order's lines with its failures |
| `Requests.dfy` | which requests may be repeated, the retry loop, the wait for the bucket of points |
| `Baseline.dfy`, `BaselineRuns.dfy` | which migrations may be recorded without being run, the marking loop with crashes, the ordered deploy after it, and both actions repeated over time |
| `Billing.dfy`, `BillingRuns.dfy` | the ledger of billing attempts, and callbacks, purchases, the outbox and Shopify's notices interleaved over it |
| `CostFreeze.dfy` | fixing the costs of order lines only when a product's cost changes |
| `Units.dfy`, `Json.dfy`, `ScriptSafe.dfy` | JSON over UTF-16 code units and the rewriting that makes it safe inside a script element |
| `Base64Url.dfy`, `Utf8.dfy`, `StateCodec.dfy` | the signed state of an authorization round |
| `Redactor.dfy` | the filter that removes addresses and passwords from a migration's output |
| `SqlNormal.dfy` | SQL statements in a form that does not depend on layout, and the gate on drift |
| `ErasureGuard.dfy` | the trigger that keeps an erased order erased |
| `Options.dfy`, `Decimal.dfy`, `Text.dfy` | small helpers: optional values, numerals, splitting and trimming |

Protocols are state machines whose steps are the stretches of code between two `await`s,
so a statement about all runs is a statement about all interleavings. Code that changes
fields, rows or lists in steps is a class or a method with loops, proved against a
specification function or directly against what it is for. Network, clock and database
answers are parameters, chosen as adversarially as each statement allows.

## Assumptions

- One clock. All instances read the same clock and it never goes back. Token renewal is
  keyed by shop throughout, so one shop is modelled.
- The lease (`LeaseHolds`) assumes that every holder saves or gives up within ten seconds
  of the instant it sampled before its update, that a save writes a strictly later
  `updatedAt` than the take it follows, and that nobody writes the row from outside.
  Linking and unlinking the account are steps of the machine, outside that theorem.
  `LeaseIsExact` shows that the first two are needed, `AllFourAreNeeded` that neither the
  guard on the version nor the wait for the lease can be done without. The map of an
  instance and the re-read are not what the lease rests on; `MapIsNeeded` and
  `RereadIsNeeded` say what they are for.
- A throttled answer from Shopify means that the request was not executed.
- Base64url of UTF-8 decodes to what was encoded and a numeral reads as its number, as it
  does below two to the 53rd; other payloads may be decoded in any way (`Faithful`, of which
  `SomePlatform` is a witness for any digest). Times in milliseconds stay below that.
- A cursor server tells the truth about one list that does not change during a drain.
- Postgres refuses an upsert that names a row twice, and one that fails writes nothing.

## What the models found

- `app/routes/billing.callback.tsx:157-159` says that what Shopify does not declare never
  blocks an activation. A missing currency does: the row of the attempt always has one,
  and it is compared with nothing (line 211). `SilentCurrencyBlocks` is such an attempt,
  `SilenceBlocksOnlyOnTheCurrency` the exact condition.
- `app/routes/billing.subscribe.tsx:188-192` closes the charge and moves the shop to the
  free plan together, so that no charge is left active. The charge is the one read before
  (line 184); a purchase completed in between stays active with no shop pointing at it.
  `StaleLeaveKeepsACharge` is such a run, `LeavingClosesWhatItSaw` the exact condition.
- A notice of an active subscription marks its row active without superseding the others
  (`app/lib/webhooks/handle-subscription-update.server.ts:199-202`). One that comes late,
  after the charge was replaced, moves the shop back and leaves two active charges
  (`LateNoticeMakesTwo`). In every run a shop keeps to one active charge exactly when each
  such notice finds no other (`OneActivePerShop`).
- A product connection, and the lines of an order, whose first page announces more without
  a cursor are drained from the start, and the nodes of the first page come twice although
  the bit is true (`FirstPageTwice`; exactly then, by `CompleteConnection` and `AllLines`).
  The drain of returns looks for the cursor first and is not affected. For an order the
  upsert then names a line twice, and its lines are not written (`WriteOrder`).
- The peeling of birthdates loses count when a customer is listed twice within one batch of
  25: one verdict, two entries. A call as a whole accounts for every entry, whatever is
  refused, exactly when no batch lists a customer twice (`VerdictsAreExact`); the same
  customer in two batches gets two verdicts (`ListedInTwoBatches`). No caller in the app
  sends such a list: the import builds it from a map (`app/lib/integrations/import.server.ts:464`), the conflicts
  are read by their unique key (`app/lib/integrations/conflicts.server.ts:86-95`), the
  write-back goes through one page of customers or sends one entry. It is an input the
  exported methods accept.
- `prisma/linea-di-base.ts` marks the provable stretch at the beginning and leaves the rest
  to the deploy. A migration that is there behind one that is missing, both allowed to be
  pending, is executed again: with the names and limits that ship, the shipping costs after
  a missing price alignment (`ShippingCostsRunAgain`), and exactly then
  (`RunsAgainExactlyWhen`; `SoundlyRunsAgainExactlyWhen` when proofs may miss what is
  there). `docs/database-migrations.md:442` asks for migrations that can be run twice, so
  this is meant to be harmless. The drift gate that the workflow passes first may stop such
  a database; it is not a step of this machine.
- A purchase whose transaction goes through while its reply is lost is answered ko by the
  catch (`app/routes/billing.callback.tsx:482`), like one that failed. Nothing is lost:
  reloading answers ok and writes nothing (`OutcomeOfACommit`, `SequentialReplayAnswersOk`).
- A piece that a mark can overlap (it begins or ends with a star, or contains the mark) can
  come out of a replacement and stay in the redacted text; no other piece can
  (`NeverSurvivesExactlyWhenClear`), and so it is for redacting twice
  (`SecondPassExactlyWhenClear`).

## Model

| member | source | states |
|---|---|---|
| TokenRenewal.OwnerRow.TryTakeTurn | app/lib/supabase-oauth.server.ts:278-286 | a taker wins exactly when the lease it saw is over and the row is still the version it saw; winning stamps the row with the sampled instant, losing changes nothing |
| TokenRenewal.OwnerRow.SaveTokens | app/lib/supabase-oauth.server.ts:59-74 | the unconditional upsert: the row becomes the grant, whatever it was, and its token serves until a minute before the seconds the provider gave are over |
| TokenRenewal.OwnerRow.ValidSavedToken | app/lib/supabase-oauth.server.ts:289-294 | the re-read answers with the row's token exactly when it is still good |
| TokenRenewal.AwaitNewToken | app/lib/supabase-oauth.server.ts:296-304 | for any schedule: the answer is that of the first poll that finds a good token, giving up means that every poll up to the deadline found none, and there are at most thirty polls |
| TokenRenewal.EveryAnswerHasAReason | app/lib/supabase-oauth.server.ts:168-247 | in every run, with crashes, re-links, lost replies and writes the call never hears of: a returned token was found good during the call or the flight it joined, or produced and saved there; a provider error surfaces only after a look at the row that found no good token in it, has the status with which the exchange of that very flight was turned down, and asks to link again exactly for 400, 401, 403 and 404; joiners give the outcome of their flight; the map of an instance names a call exactly while its renewal is in flight |
| TokenMechanisms.MapIsNeeded | app/lib/supabase-oauth.server.ts:178-190 | in every run an instance has one renewal in flight at a time, if and only if calls look into its map |
| TokenMechanisms.RereadIsNeeded | app/lib/supabase-oauth.server.ts:227-243 | in every run a provider error surfaces only over a row without a good token, if and only if the row is read again after a failure |
| TokenRenewal.ErrorOnlyOverNoGoodToken | app/lib/supabase-oauth.server.ts:231-243 | a provider error is given by a re-read alone, over a row without a good token at that instant; a re-read over a good token answers with it; what the history says of the row is what was there |
| TokenRenewal.EveryFailureHasItsCause | app/lib/supabase-oauth.server.ts:168-247 | whatever segment ends a call: a good token seen is the answer, and each failure is given if and only if its one cause is there (no row, no configuration, three seconds waited over a row without a good token, a write or read that failed) |
| TokenRenewal.NewAnswerJustified | app/lib/supabase-oauth.server.ts:223-247 | every segment that produces an answer leaves in the history the read or the save that justifies it, or the refusal and the look in vain behind its error, whose status is that of the refusal and calls the credential dead only if it is 400, 401, 403 or 404 |
| TokenRenewal.MapFollowsFlight | app/lib/supabase-oauth.server.ts:168-190 | a segment enters the map exactly when it starts a renewal and leaves it exactly when the renewal is over |
| TokenRenewal.WinnerFindsNoHolder | app/lib/supabase-oauth.server.ts:278-286 | whoever wins the guarded update wins it when no call is between its take and its save |
| TokenRenewal.LeaseInvariant | app/lib/supabase-oauth.server.ts:198-286 | row, holders, provider and history stay in step over every orderly run |
| TokenRenewal.LeaseHolds | app/lib/supabase-oauth.server.ts:198-286 | over every orderly run: critical sections exclude each other, takes are a lease apart, one winner per version, every holder presents the row's token, a token exchanged and saved is never presented again, and without lost grants every token presented is the one the provider honours |
| TokenRenewal.WinnersDiffer | app/lib/supabase-oauth.server.ts:278-286 | of all takers holding one version of the row at most one wins |
| TokenRenewal.StaleReaderNeverHolds | app/lib/supabase-oauth.server.ts:168-190 | a reader whose row has gone stale never holds a turn through that read |
| TokenRenewal.StaleReaderInAnyRun | app/lib/supabase-oauth.server.ts:168-190 | the same in every orderly run from the start |
| TokenMechanisms.DeadHolderBlocksNobody | app/lib/supabase-oauth.server.ts:278-286 | once the stamp is a lease old, a new call that meets nobody takes the turn, whatever became of the last holder |
| TokenMechanisms.SameMillisecondSave | app/lib/supabase-oauth.server.ts:59-74 | a run in which a save in the millisecond of its take lets a spent token be presented again |
| TokenMechanisms.OverdueHolder | app/lib/supabase-oauth.server.ts:198-247 | a run in which a holder that outlives its lease lets a spent token be presented again |
| TokenMechanisms.LeaseIsExact | app/lib/supabase-oauth.server.ts:198-286 | spent tokens stay spent in every run if and only if saves move the version strictly on and no holder outlives ten seconds |
| TokenMechanisms.NeitherSuffices | app/lib/supabase-oauth.server.ts:278-286 | a run, for either mechanism switched off (the guard on the version, the wait for the lease), in which two calls hold the turn and a spent token is presented again |
| TokenMechanisms.AllFourAreNeeded | app/lib/supabase-oauth.server.ts:198-286 | spent tokens stay spent in every run if and only if the update is guarded, the lease is waited for, saves move the version strictly on and no holder outlives its turn |
| Metafields.RefusalPathNamesItsEntry | app/lib/shopify-api.server.ts:465-470 | the path Shopify sends for an entry leads back to that entry |
| Metafields.CustomerStore.MetafieldsSet | app/lib/shopify-api.server.ts:1582-1614 | the assumed server: a batch is saved whole or not at all, only where nothing is there yet when guarded, every overwritten value is recorded, and a call that throws may have been executed |
| Metafields.ReadRefusals | app/lib/shopify-api.server.ts:1717-1734 | the loop over the refusals computes their fold, entry by entry |
| Metafields.OneVerdictEach | app/lib/shopify-api.server.ts:1717-1740 | everyone taken out of a batch belongs to it and gets exactly one verdict, and somebody is taken out unless the call was refused whole |
| Metafields.FirstRefusalDecides | app/lib/shopify-api.server.ts:1719-1734 | the verdict on a customer is that of the first refusal that names it: present for the two codes of a value that is there already, when that is asked for, else failed with the text of that refusal |
| Metafields.RoundAccounts | app/lib/shopify-api.server.ts:1711-1741 | for distinct customers a round loses nobody and judges nobody twice |
| Metafields.RoundShrinks | app/lib/shopify-api.server.ts:1735-1742 | a round ends the batch or leaves a strictly shorter part of it, for any refusals |
| Metafields.RoundsCompose | app/lib/shopify-api.server.ts:1686-1742 | the verdicts of successive rounds of one batch add up |
| Metafields.SendOnce | app/lib/shopify-api.server.ts:1687-1741 | one call and the reading of its reply: the round it makes and what it did to the store |
| Metafields.FillBatch | app/lib/shopify-api.server.ts:1684-1742 | the peeling of one batch: at most one call an entry, every customer of a batch of distinct ones accounted for, no value ever replaced, and its result is that of the refusals it met |
| Metafields.FillIfAbsent | app/lib/shopify-api.server.ts:1670-1746 | the whole fill against any store: it does what the refusals it met amount to batch by batch; unless a batch lists a customer twice, every entry ends written, present or failed once; the store changes exactly at the written ones, which had no value, apart from customers touched by others or sent in a call of unknown outcome |
| Metafields.SetBatch | app/lib/shopify-api.server.ts:1581-1650 | the peeling of one batch without the guard on present values; its messages are the texts of the refusals of its calls, in order |
| Metafields.SetBirthdates | app/lib/shopify-api.server.ts:1564-1654 | the whole write, with the same accounting under the same condition: the count, the failures, and as messages the texts of all the refusals, call by call |
| Metafields.TwinsShareAVerdict | app/lib/shopify-api.server.ts:1635-1649 | a customer listed twice in a batch and refused once gets one verdict for two entries |
| Metafields.SettledAccounts | app/lib/shopify-api.server.ts:1684-1744 | a call that comes to its end gives every entry one verdict unless a batch lists a customer twice |
| Metafields.VerdictsAreExact | app/lib/shopify-api.server.ts:1564-1746 | for the whole call, with the guard on present values and without it: whatever is refused, every entry gets exactly one verdict if and only if no customer is listed twice within one batch of 25 |
| Connections.Drain | app/lib/shopify-api.server.ts:758-812 | what is drained is the stretch of the list after the cursor; a true bit means it reaches the end; with a server that does not fail the bit is true exactly when the rest fits in twenty full pages |
| Connections.CompleteConnection | app/lib/shopify-api.server.ts:826-845 | after a true bit the nodes are the whole list if and only if no cursor was withheld after a first page with something on it; in every other case the first page is followed by a start of the list, or the whole is a prefix; with a server that does not fail the bit is true exactly when twenty full pages hold the rest |
| Connections.CompleteProduct | app/lib/shopify-api.server.ts:823-857 | both connections of a product, and one that was not asked for counts as incomplete |
| Connections.CompleteReturns | app/lib/shopify-api.server.ts:1066-1089 | returns that cannot be read to the end become unknown, never a shorter list, and nothing is read twice |
| Connections.AllLines | app/lib/shopify-api.server.ts:1800-1814 | the lines of an order: all of them live, all live ones when the bit is true, and each once under the same condition |
| Connections.FirstPageTwice | app/lib/shopify-api.server.ts:1800-1814 | a first page that withholds its cursor, and the line that comes twice although the bit is true |
| Connections.LineTable.UpsertLines | app/lib/customers/order-write.server.ts:104-115 | the lines chunk by chunk: what was written before a failure stays, and success means that no chunk named a line twice |
| Connections.LineTable.DeleteStale | app/lib/customers/order-write.server.ts:168-190 | the deletion by difference removes exactly the lines of the orders that are not kept and counts them, or reports an error and leaves all of them |
| Connections.LineTable.WriteOrder | app/lib/customers/order-write.server.ts:94-136 | whatever fails, no live line is deleted and other orders stay as they were; when nothing is left to repair the stored lines are exactly the live ones; lines read to the end after a withheld cursor are refused |
| Requests.FirstSignificantLineDecides | app/lib/shopify-api.server.ts:495-503 | only the first line that is neither blank nor a comment decides whether a document writes: by the word `mutation` at its start and no longer word |
| Requests.LeadingCommentsDoNotMatter | app/lib/shopify-api.server.ts:495-503 | comments and blank lines in front change nothing |
| Requests.FirstWordDecides | app/lib/shopify-api.server.ts:495-503 | past any lines of blanks and comments and any blanks, a document is a mutation if and only if it goes on with `mutation` and then ends or has a character no word has |
| Requests.MutationsAreWhatWrites | app/lib/shopify-api.server.ts:495-503 | a document is taken for a mutation if and only if it can be read that way at all |
| Requests.RetriedExactlyWhenSafe | app/lib/shopify-api.server.ts:518-545 | a delay is given exactly for a throttled request or a read that failed in passing, at least the backoff and the delay the server asked for |
| Requests.Graphql | app/lib/shopify-api.server.ts:617-636 | for every sequence of outcomes: at most three attempts; of a document that opens a mutation past blanks and comments no attempt is followed by another unless it was surely not executed; every wait is long enough; it gives up only when it must |
| Requests.AwaitBucket | app/lib/shopify-api.server.ts:1130-1140 | after the wait the bucket covers the cost if and only if it can hold it at all, one millisecond less does not, and there is no wait when nothing is missing or nothing is known |
| Requests.WaitIsExact | app/lib/shopify-api.server.ts:1130-1140 | the wait is enough if and only if the bucket can hold the cost at all, and one millisecond less is not enough |
| Requests.EqualQueriesNeverThrottled | app/lib/shopify-api.server.ts:1032-1033 | a run of equal queries separated by this wait never finds the bucket too low |
| BaselineRuns.EveryMigrationOnce | prisma/linea-di-base.ts:336-571 | over any sequence of cut-off markings and guarded deploys with sound proofs, every migration is recorded from the start, or marked, or executed, at most one of these and once; the registry holds just these, what is recorded is there, and nothing runs over a later one |
| BaselineRuns.NothingAfterABreak | prisma/linea-di-base.ts:336-358 | a migration that breaks off leaves one unfinished row, and after it no marking and no deploy, on whatever proofs, changes anything |
| BaselineRuns.RunsAgainExactlyWhen | prisma/linea-di-base.ts:381-432 | with proofs that find all there is, some run executes a migration that is already there if and only if the script goes on, has something to start with, and an unrecorded migration is there with itself or an earlier one not to be found |
| BaselineRuns.SoundlyRunsAgainExactlyWhen | prisma/linea-di-base.ts:336-571 | with any sound proofs, which may miss what is there and differ from step to step, some run executes a migration that is already there if and only if some proofs of what is there would let it at once |
| BaselineRuns.ShippingCostsRunAgain | prisma/registro.ts:29 | three migrations and the limits as they ship, the middle one missing, and the last executed again |
| Baseline.ProvenBy | prisma/linea-di-base.ts:439-450 | a migration is proven exactly when its structural proof or its own query says so |
| Baseline.PrefixOrNotice | prisma/linea-di-base.ts:321-330 | no holes and no strangers if and only if the registry is a prefix of the folders |
| Baseline.Decide | prisma/linea-di-base.ts:336-432 | the decision procedure computes the specified decision, of which `DecisionIsExact` and `StopsSayWhy` say what it is |
| Baseline.DecisionCuts | prisma/linea-di-base.ts:381-432 | with the first k folders recorded, the decision cuts the folders in recorded, to mark and pending |
| Baseline.DecisionIsExact | prisma/linea-di-base.ts:336-432 | it goes on if and only if nothing failed, the registry is a prefix of the folders and whatever is neither recorded nor provable may be missing; a folder is then marked if and only if it is unrecorded, not after the last migration of the baseline, and proven with every earlier one, and pending if and only if it is unrecorded and not so |
| Baseline.StopsSayWhy | prisma/linea-di-base.ts:336-422 | a stop names what is wrong: all unfinished rows, all recorded strangers, all folders missing before a recorded one, or one that is pending and may not be missing |
| Baseline.StopsExactlyWhen | prisma/linea-di-base.ts:336-422 | it proceeds if and only if nothing failed, the registry is a prefix and only foreseen migrations are pending; a stop marks nothing |
| Baseline.Proceeding | prisma/linea-di-base.ts:381-432 | with the first k folders recorded: what is marked, what is left pending and when the baseline counts as established |
| Baseline.ResumesWhereItStopped | prisma/linea-di-base.ts:568-571 | cut off after any number of rows, deciding again yields exactly the rows that are left, and an established baseline once none is |
| Baseline.CrashesConverge | prisma/linea-di-base.ts:568-571 | after any series of interruptions one marking ends in the same registry as an uninterrupted one |
| Baseline.ShortcutAgrees | prisma/linea-di-base.ts:471-489 | the shortcut that looks for no proofs agrees with the decision, whatever the proofs |
| Baseline.ShippedShortcutAgrees | prisma/registro.ts:29 | the two limits as shipped, by name, are in order, so the shortcut agrees with the decision of the script as it ships |
| Baseline.Database.Mark | prisma/linea-di-base.ts:568-571 | the marking loop, cut off anywhere, has written the first rows in order |
| Baseline.Database.Deploy | prisma/linea-di-base.ts:353-358 | the deploy runs every folder without a row once, in order, and none over a later recorded one |
| Baseline.Database.MarkAndDeploy | prisma/linea-di-base.ts:336-571 | with sound proofs every folder ends recorded: it was, or it is proven and was only marked, or it was run once and in order; marked are exactly the unrecorded ones not after the last of the baseline and proven with every earlier one, so none of these is executed; a stop changes nothing |
| Billing.AttemptMismatches | app/routes/billing.callback.tsx:161-226 | there is no complaint exactly when state, row and subscription tell one story, field by field; each complaint is raised exactly when what it says is so; without a verified state the one complaint says why |
| BillingRuns.SilentCurrencyBlocks | app/routes/billing.callback.tsx:157-223 | an attempt that is recognised, with or without an amount and an interval, and blocked once the currency is left out |
| Billing.SilenceBlocksOnlyOnTheCurrency | app/routes/billing.callback.tsx:157-223 | an amount or interval that Shopify does not declare never blocks; a missing currency blocks if and only if the row has one |
| Billing.BillingDatabase.Buy | app/routes/billing.callback.tsx:397-457 | the transaction activates exactly when the row is this shop's, pending, unspent and of that nonce; then charge, shop and the other charges change together, else nothing does |
| Billing.BillingDatabase.ApplyPlan | app/lib/billing/apply-plan.server.ts:89-125 | the new state of the shop: plan, trial, dates, and a suspended shop reopened only by a paid plan |
| Billing.BillingDatabase.MarkSuperseded | app/lib/billing/cancel-outbox.server.ts:47-64 | exactly the other live charges of the shop become superseded |
| Billing.BillingDatabase.LeaveForFree | app/routes/billing.subscribe.tsx:183-208 | the free plan: the charge that was seen is cancelled and the shop moved |
| Billing.BillingDatabase.Open | app/routes/billing.subscribe.tsx:280-303 | a new attempt is born pending with its nonce unspent, and not at all when number or nonce is taken |
| BillingRuns.StepMovesForward | app/routes/billing.callback.tsx:327-457 | no step of anybody brings a charge back to pending, changes what it was opened with, or forgets a spent nonce |
| BillingRuns.NeverPendingAgain | app/routes/billing.callback.tsx:397-457 | the same over every run |
| BillingRuns.LedgerInvariant | app/routes/billing.callback.tsx:345-457 | nonces stay unique, every purchase in the log is backed by its spent row, and what a callback has read is an earlier version of the row |
| BillingRuns.PlansFollowTheLog | app/lib/billing/apply-plan.server.ts:89-125 | whatever runs, a shop's plan, trial and dates are the fold of the changes logged for it |
| BillingRuns.EachAttemptIsSpentOnce | app/routes/billing.callback.tsx:397-457 | over every interleaving each purchase has its own callback, charge and nonce; its plan, shop and nonce are those of the signed state, its cadence and trial what Shopify declared to that callback, or what the state said where Shopify kept silent; the row it spent stays spent, and nothing but the log moves a shop |
| BillingRuns.CallbackStaysHome | app/routes/billing.callback.tsx:334-336 | no step of a callback touches another shop or its charges |
| BillingRuns.OnlyTheWinnerWrites | app/routes/billing.callback.tsx:327-340 | a callback that does not buy leaves every shop alone and at most notes that its own charge has ended |
| BillingRuns.OutcomeOfACommit | app/routes/billing.callback.tsx:397-488 | a callback wins if and only if its transaction is carried out and finds the row pending and unspent; then charge and shop hold the plan, the cadence and the trial of the purchase in the log; hearing nothing of it, it answers ko; having read the row pending it answers ok only by winning; having read it later it cannot win, and answers ok exactly when what it read was applied |
| BillingRuns.OutcomeInAnyRun | app/routes/billing.callback.tsx:397-488 | wherever a run leads, a commit answers ok if and only if it hears of its transaction and either wins or had read the purchase as applied; it can win only having read the row pending |
| BillingRuns.AnswerWithoutABuy | app/routes/billing.callback.tsx:327-395 | a callback that answers without buying says ok if and only if what it read is this charge, plan and cadence, the charge active; the cadence is what Shopify declares, else what the state says, else that of the row; it writes nothing but the end of its own charge, and nothing at all for a subscription that has not ended |
| BillingRuns.CheckedHoldsWhatItHeard | app/routes/billing.callback.tsx:318-356 | what a callback takes to its commit is the subscription Shopify declared and the row it read at that moment |
| BillingRuns.CallbacksStayHome | app/routes/billing.callback.tsx:331-347 | however many callbacks of other shops run, a shop and its charges stay as they are |
| BillingRuns.ReplayNeedsBothReadsAfter | app/routes/billing.callback.tsx:238-255 | a second callback sees the purchase as applied if and only if both its reads came after the winner's commit |
| BillingRuns.SequentialReplayAnswersOk | app/routes/billing.callback.tsx:459-469 | a reload before any later change of that shop and charge, with the same state or none, answers ok and writes nothing, also when the winner itself was told ko because its reply was lost |
| BillingRuns.ConcurrentLoserIsToldKo | app/routes/billing.callback.tsx:459-469 | a run in which two tabs read before either commits: the second is told ko although the purchase went through |
| BillingRuns.OneActivePerShop | app/lib/billing/cancel-outbox.server.ts:47-64 | a shop has at most one active charge all through a run if and only if every notice in it that marks a charge active finds no other active one |
| BillingRuns.MarkActiveIsExact | app/lib/webhooks/handle-subscription-update.server.ts:199-202 | the write of a notice leaves one active charge if and only if the row is not the shop's or no other row of the shop is active |
| BillingRuns.LateNoticeMakesTwo | app/lib/webhooks/handle-subscription-update.server.ts:166-202 | a run from the start (two purchases, then a late notice of the first) that ends on the first plan with two active charges |
| BillingRuns.LeavingClosesWhatItSaw | app/routes/billing.subscribe.tsx:184-206 | moving to the free plan leaves no active charge if and only if the charge it read is still the active one |
| BillingRuns.NoticeOfAnActiveCharge | app/lib/webhooks/handle-subscription-update.server.ts:142-202 | a notice of an active charge, from its first step to its last: nothing when the shop is on that charge, else the shop is moved to it and its row marked active, and nothing besides |
| BillingRuns.NoticeOfAnEnd | app/lib/webhooks/handle-subscription-update.server.ts:106-118 | a notice of an end moves a shop only off that very charge; of a charge that was replaced it changes nothing |
| BillingRuns.NothingActiveAtShopify | app/lib/webhooks/reconcile.server.ts:155-167 | the reconciliation takes a shop off the numbered charge it is on, cancels that row and nothing else |
| BillingRuns.UnknownSubscriptionIsQueued | app/lib/billing/cancel-outbox.server.ts:172-208 | a subscription that nobody expected ends not live: a missing row is created superseded, a live one of the shop becomes so, and no row of another shop changes |
| BillingRuns.StaleLeaveKeepsACharge | app/routes/billing.subscribe.tsx:184-206 | a run from the start (the free plan read, the second plan bought in another tab, the free plan applied) that ends with an active charge no shop points at |
| CostFreeze.EditMeansWhatItSays | app/lib/products/cost-scope.ts:87-126 | line by line, `future` leaves every known cost alone and fills unknown ones, `all` sets every line, and no line is ever marked fixed without a cost |
| CostFreeze.MerchantDatabase.ApplyCostScope | app/routes/products.issues.tsx:219-257 | the write on the lines, or none when it fails |
| CostFreeze.MerchantDatabase.ApplyCost | app/routes/products.issues.tsx:267-337 | the whole save with every failure on the way: what it answers and what changed, half-saved edits included; after a save net value and cost add up to the price, which stays, as does every other product; no cost changes when only the first of a `future` edit's writes goes through |
| CostFreeze.NetFollowsTheCost | app/routes/products.issues.tsx:317-329 | over any run, every product whose cost some edit wrote has the net value its price leaves over that cost, and no edit changes a price |
| CostFreeze.WhatGetsFixed | app/lib/products/cost-scope.ts:87-126 | line by line and whatever is in the tables: `all` frees every line of the variant, `future` fixes those that are not fixed, at the cost of the product and only if that is one, there and not negative |
| CostFreeze.ScopeAlone | app/routes/products.issues.tsx:230-246 | fixing lines at the cost they have changes no cost |
| CostFreeze.SecondWriteAloneIsExact | app/routes/products.issues.tsx:317-329 | an edit whose first write fails means what it says if and only if no line it should have fixed had another cost and no line it should have freed is fixed at another one |
| CostFreeze.FreezingRefinesHistory | app/lib/supabase-schema.ts:375-400 | over any sequence of sales, arrivals, edits and half-saved edits (those without their first write as far as they are harmless), fixing on change is a plain history of costs per line |
| Json.ReadsEscaped | app/lib/oauth-callback-page.server.ts:20-21 | the escaped form of any string, lone surrogates included, reads back as that string |
| Json.StringsAreThese | app/lib/oauth-callback-page.server.ts:20-21 | what is read as a string is what can be spelled unit by unit as section 7 of RFC 8259 has it, up to the closing quotation mark |
| Json.NumbersAreThese | app/lib/oauth-callback-page.server.ts:20-21 | what is read as a number is a sign, a whole part without leading zeros, a fraction and an exponent, each as section 6 of RFC 8259 has it, and nothing else is |
| Json.ParsePrint | app/lib/oauth-callback-page.server.ts:20-21 | reading gives back what was written, for every nested value |
| ScriptSafe.SafeString | app/lib/oauth-callback-page.server.ts:20-25 | a string literal reads the same after the rewriting, also when a replaced character follows an escaped backslash |
| ScriptSafe.SafeMeansTheSame | app/lib/oauth-callback-page.server.ts:20-25 | every valid JSON text means the same after the rewriting, none of the five characters is left in it, and a text without them stays as it is |
| ScriptSafe.ScriptRoundTrip | app/lib/oauth-callback-page.server.ts:20-25 | what the page puts into its script reads back as the message |
| Base64Url.DecodeEncode | app/lib/supabase-oauth.server.ts:26-29 | base64url round trip for every length, so for each of the three tails |
| Base64Url.EncodeDecode | app/lib/supabase-oauth.server.ts:47 | letters of the table only and no tail of one are read, and written again they are the same but for spare bits in the last letter |
| Base64Url.GroupsAreNumbers | app/lib/supabase-oauth.server.ts:26-29 | four letters are the number to the base of 64 that three bytes are to the base of 256, a tail is a full group cut short, and nothing is padded |
| Utf8.DecodeEncode | app/lib/supabase-oauth.server.ts:26-28 | UTF-8 round trip for every string without half pairs |
| Utf8.EncodeDecode | app/lib/supabase-oauth.server.ts:47 | bytes that are read at all are exactly those that would be written: shortest forms, no half pairs, nothing past U+10FFFF |
| Utf8.QuotedIsPaired | app/lib/supabase-oauth.server.ts:27 | a quoted string never holds half a pair, whatever the string |
| StateCodec.SomePlatform | app/lib/supabase-oauth.server.ts:37-51 | a platform as assumed exists for any digest |
| StateCodec.SignedIs | app/lib/supabase-oauth.server.ts:25-31 | a signed state is the encoded payload, which expires after ten minutes, a dot, and the encoded digest of that payload |
| StateCodec.TwoParts | app/lib/supabase-oauth.server.ts:37-39 | splitting a signed state at the dot gives exactly payload and signature |
| StateCodec.OpensItsOwn | app/lib/supabase-oauth.server.ts:47-51 | a payload opens to the shop and the expiry it was made of, on every platform that decodes proper payloads as such, for expiries below two to the 53rd |
| StateCodec.VerifySigned | app/lib/supabase-oauth.server.ts:25-57 | a signed state gives back its shop id, for every id, exactly until ten minutes have passed |
| StateCodec.AcceptedOnlyIfSigned | app/lib/supabase-oauth.server.ts:40-53 | whatever is accepted, however leniently payloads are decoded, is a payload followed by exactly its own signature, and it is the payload that names the shop |
| Redactor.SplitAndJoinReplace | scripts/oscura-segreti.ts:56 | splitting and joining is the leftmost replacement without overlap |
| Redactor.FirstOccurrenceBecomesStars | scripts/oscura-segreti.ts:56 | the leftmost occurrence becomes three stars, what is before it stays, and what is after it is looked through alone |
| Redactor.NothingNewOccurs | scripts/oscura-segreti.ts:56 | what occurs after a replacement, if no mark can overlap it, occurred before it and is not the piece replaced |
| Redactor.OrderOfPieces | scripts/oscura-segreti.ts:52-54 | the pieces are taken once each, only the long ones, longest first, those of one length in the order in which they came |
| Redactor.Redact | scripts/oscura-segreti.ts:51-58 | the loop computes the specified result, and no long piece that is clear of marks is left in it |
| Redactor.GoneExactlyWhenClear | scripts/oscura-segreti.ts:56 | a piece is gone after its own replacement, from every text, if and only if it neither begins nor ends with a star nor contains the mark |
| Redactor.NeverSurvivesExactlyWhenClear | scripts/oscura-segreti.ts:51-58 | a long piece never survives, in any text and beside any other pieces, if and only if it is clear of marks |
| Redactor.OtherTextIsKept | scripts/oscura-segreti.ts:51-58 | a text without any of the pieces is left as it is |
| Redactor.KeptExactlyWhenClean | scripts/oscura-segreti.ts:51-58 | redacting leaves a text alone if and only if no long piece is in it |
| Redactor.SecondPassChangesNothing | scripts/oscura-segreti.ts:51-58 | redacting twice is redacting once when the long pieces are clear of marks |
| Redactor.SecondPassExactlyWhenClear | scripts/oscura-segreti.ts:51-58 | redacting twice is redacting once, for every text and every list drawn from some pieces, if and only if the long ones among them are clear of marks |
| Redactor.WholePieceBecomesOneMark | scripts/oscura-segreti.ts:50-54 | an address that is itself a piece becomes one mark, because longer pieces go first |
| Redactor.AStarredPieceMaySurvive | scripts/oscura-segreti.ts:51-58 | two pieces and a text for which a piece with stars is the result |
| SqlNormal.CoreOfSqueezed | prisma/expected-drift.ts:127-133 | the statements of a text without comments depend on its words alone |
| SqlNormal.SqueezeJoinsWords | prisma/expected-drift.ts:130 | collapsing and trimming is joining the words with one blank |
| SqlNormal.LayoutDoesNotMatter | prisma/expected-drift.ts:113-133 | two scripts with the same words outside their comment lines have the same statements |
| SqlNormal.WithoutCommentsOnlyWordsMatter | prisma/expected-drift.ts:113-133 | for scripts in which no word opens a comment these are all their words, however the lines break |
| SqlNormal.StatementsAreShaped | prisma/expected-drift.ts:129-132 | every statement is words with one blank between them and one semicolon, at the end |
| SqlNormal.StatementsByWords | prisma/expected-drift.ts:113-133 | nothing is lost: the statements are the stretches between semicolons that have words, word for word, comment lines and qualifiers aside |
| SqlNormal.CommentLineIsDropped | prisma/expected-drift.ts:120-123 | a line of blanks, two dashes and anything at all changes no statement |
| SqlNormal.NormalFormIsStable | prisma/expected-drift.ts:119-133 | normalising the joined output gives it back if and only if no statement starts like a comment and none still holds the qualifier |
| SqlNormal.GateIsExact | prisma/expected-drift.ts:136-151 | for every script the gate passes before the migrations if and only if each statement is one of the five known ones, after them one of four; what the migrations are about to remove is refused after them; and the wanted ones are missing exactly when one of the two dropped keys is not there |
| SqlNormal.GateLooksAtWords | prisma/expected-drift.ts:136-151 | the gate looks at the words outside the comment lines alone |
| ErasureGuard.LawHasOneOutcome | app/lib/supabase-schema.ts:259-269 | the rules for an updated row leave exactly one outcome |
| ErasureGuard.NewRow.BeforeUpdate | app/lib/supabase-schema.ts:278-302 | the trigger, assigning in place, leaves what the rules allow: the four columns about the customer empty |
| ErasureGuard.ErasureIsForGood | app/lib/supabase-schema.ts:278-302 | over any sequence of updates the mark keeps its value, the cleared columns are empty after each, the cost is the last that came with a country, and the rest is as written |
| ErasureGuard.UnmarkedIsAsWritten | app/lib/supabase-schema.ts:268-269 | an unmarked row is updated exactly as written, by the update that marks it too |
| ErasureGuard.NothingComesBack | app/lib/supabase-schema.ts:232-238 | once any of the updates has marked the row, no later one lets a cleared column back in |

## Left out

- React pages, forms, redirects, logging and the wording of messages.
- Webhook routes, replay scripts, workers and cron jobs, except for the writes of Shopify's subscription notices and of the reconciliation that stands in for lost ones, which are steps of the billing machine.
- The `rest.v1` routes and the registers and locks behind them.
- AES-GCM and HMAC: encryption of stored tokens is the identity, the keyed digest is any function.
- Re-reading of a billing state signed elsewhere: its codec has the same shape as the authorization state and is taken as verified or not.
- Plan names and currencies are compared after trimming, case folding and the translation of old names; that translation is not modelled.
- The conversion of written amounts to hundredths: an amount is hundredths or unreadable.
- Which price a purchase asks for, partner discounts, and the catch-up queued when a plan raises a limit.
- When a superseded subscription is really closed on Shopify: the outbox only records it.
- Charges without a number at Shopify: no step of the modelled code selects them.
- JavaScript floating point: costs, points, times and amounts are integers.
- Field-by-field mappers of products, variants, customers and orders.
- Fulfilments of an order beyond the first page: they are fetched whole by another query.
- PostgreSQL, `migrate resolve` and `migrate deploy` beyond the rows they write and the order in which they run.
- The query texts behind the proofs of the baseline; a proof is an answer.
- The bucket's levels are in thousandths of a point, where the client divides floating-point numbers.
- The reading of payloads that `signState` never makes: `verifyState` decodes them leniently, and the model leaves open how.
- What repairs an unfinished migration row by hand: no action goes on while there is one.
- BaselineRuns.SoundlyRunsAgainExactlyWhen: its proofs are any set of what is there, although the structural ones stand or fall together.
- Metafields.CustomerStore.MetafieldsSet: an answer without a payload counts as a call of unknown outcome, although the client reports its customers as written.
