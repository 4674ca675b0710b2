# Verified model of the reseller control plane

The control plane sells server traffic through a tree of resellers. Every organization has a wallet
in a double-entry ledger. Counter readings of the servers are priced at each level of the tree and
paid level by level up to the top. Money enters through funding requests, wallet corrections, paid
customer orders and a funding API; an outbox with several workers carries the side effects out.

This project models that money kernel and the state machines around it, and proves what they keep
over every run. Where the program updates rows in place there is a class whose methods carry the
same statements (`Outbox.Queue`, `Sessions.Session`, `Office.Counter`, `Catalog.Tables`,
`Limiter.RateLimiter`); each method is proved equal to a function on values, and the theorems are
about those functions. `dafny verify dfyconfig.toml` checks everything.

| module | subject |
|---|---|
| `Options`, `Sums` | optional values, sums of sequences and over sets |
| `Pricing` | the decimal pipeline of a price, its exactness, and rounding drift |
| `Ledger` | `transfer` on its own: books, keys, cover, zero sum |
| `Interleaving`, `Answers` | any number of sessions interleaved at the statements of `transfer`, and what each is answered |
| `Cascades` | sessions of many transfers each, their rows locked to the commit |
| `Resellers` | parent pointers, closure table, contracts, depth limit |
| `Settlement` | one chain of usage transfers |
| `Metering`, `Readings` | checkpoints, regressions, resets, holds, batches, and what each reading answers |
| `Epochs` | whole runs of readings of one binding, batches that keep interrupted settlements included |
| `Drift` | what an epoch of the counter costs against its total |
| `Sessions` | the kernel as rows updated in place, with commit and rollback |
| `Outbox`, `Delivery`, `Retries` | the delivery operations, the protocol of all workers together, and what a run makes of each event |
| `Catalog`, `Publishing` | plans, shelves, what strangers may buy, and who decided so |
| `Limiter` | the rate limiter |
| `Desk`, `Office`, `Requests` | every committed request: as a function, as rows updated in place, and as a table it refines |
| `Treasury`, `Reconciliation`, `Worlds` | what every request keeps; what explains SYSTEM's balance |
| `Histories`, `Origins`, `Runs` | orders, corrections, organizations and bindings over whole runs of the desk |
| `Witnesses` | two runs of the desk in which bytes are charged twice, or not at all |

## What the code does that its comments or documents do not say

- `usage_batch` goes on after a hold without a rollback, so levels that had already paid stay
  charged. Only the same reading completes the settlement; every other reading that gets through such
  a level from the same checkpoint charges it again for the same bytes
  (`Epochs.ChargedOnceIffSameReading`; a run in which it happens: `Witnesses.BatchChargesTwice`).
- Usage keys carry no reset epoch. After a reset, a pair of readings that was accepted before moves
  no money (`Epochs.ChargedUnlessRepeated`; a run: `Witnesses.ResetMakesFree`). Over an epoch the
  shortfall is exactly the prices of such pairs (`Drift.ShortfallIff`); before the first reset there
  are none (`Epochs.FirstEpochNeverRepeats`, `Drift.FirstEpochDrift`).
- A positive delta that prices to zero at any level is refused, so the checkpoint stays and the bytes
  accumulate (the `amount >= 1` condition of `Settlement.SettlesIff`).
- The ascending lock order makes single transfers deadlock-free only if every transfer has at least
  one account row already; two opposite transfers between owners without rows stop for good
  (`Interleaving.MissingAccountsDeadlock`). All creators open the account with the organization, so
  no transfer of the desk is of that kind (`Treasury.AccountsOk`, kept by `Worlds.AlwaysOk`). No other
  deadlock of single transfers exists (`Interleaving.DeadlockIff`).
- A transfer checks its key under the locks of its own two accounts, so another transfer between other
  accounts can still take the key afterwards. Only then does it end in a unique violation, or in a
  refusal of its payer where a replay would be due (`Answers.AnswersFit`, `Answers.ClashIsTaken`).
- The bot's reseller form keeps the closure table right but skips the depth check
  (`Resellers.ChildWithinLimits` says exactly when that breaks the limit).
- `complete` and `retry` do not look at the claim. A claim is lost exactly when stale claims are taken
  back while a live worker has outlived one (`Delivery.ClaimLostIff`), and then that worker can send an
  event back to work that another has completed (`Delivery.LateWorkerRevives`).
- A stale claim whose key has a newer pending twin makes `reclaim_stale` fail, before anything else
  runs, for every worker and forever (`Delivery.StoppedForever`); one dead worker is enough
  (`Delivery.DeadWorkerStopsQueue`).
- Topic `panel_order.approved` has no handler (`Delivery.OrderTopicIsUnhandled`), so its events only fail
  until they are dead (`Delivery.UnhandledOnlyDies`).
- docs/ARCHITECTURE.md:41-42 says that an approved funding request settles up the parents; the code
  moves money from SYSTEM to one wallet (src/control_plane/web_api.py:517), and so does the model.
- The limiter calls itself a fixed-window counter; it keeps a sliding log.

## Hypotheses

- Keys given to the funding API never look like the keys the program builds for itself
  (`Ledger.Key` keeps them apart).
- Exactness and drift need `delta * rate * c` below 10^28, with c the coefficient times 10^4
  (`Pricing.ExactPrice`); beyond it the pipeline is modelled but not compared.
- The laws of `Delivery` hold under the lease: every claim is settled, or its worker dead, before the
  claim timeout (`Delivery.Leased`).
- `Epochs` follows one binding from the request that binds it on, through any requests at all
  (`Runs.DeskRunIsUsageRun`); only the price laws of `Drift` ask that the server's coefficient has not
  changed while the charges were made, and the plain n/2 bounds that no reading of the epoch was left
  half settled.
- The limiter's clock does not go back between calls. The program reads it before taking its lock,
  so two threads can arrive out of order.

## Model

| member | source | states |
|---|---|---|
| Pricing.ExactPrice | src/control_plane/domain.py:5-9 | the decimal pipeline (28 digits half-even at every step, then half-up) gives exactly the half-up rounding of delta*rate*c/(2^30*10^4) whenever the product is below 10^28: the double rounding never flips a result |
| Pricing.DoubleRounding | src/control_plane/domain.py:9 | rounding a quotient half-even to a finer grid and then half-up to whole rials equals rounding once |
| Pricing.SplitDrift | src/control_plane/domain.py:5-9 | rounding n parts separately differs from rounding their sum by d with 2*abs(d) <= n |
| Pricing.ReadingDrift | src/control_plane/domain.py:5-16 | n separately priced readings differ from pricing their total at once by at most n/2 rials, for every split |
| Pricing.GibCostsRate | src/control_plane/domain.py:3-9 | a GiB at coefficient one costs exactly the rate |
| Pricing.CascadeFails | src/control_plane/domain.py:15-16 | a positive delta is not charged exactly when some level cannot be priced, and the first such level says why |
| Ledger.TransferKeepsBooks | src/control_plane/app.py:278-304 | accepted or refused, a transfer keeps every cached balance equal to credits minus debits, every transaction two-sided and positive, every key unique (the ledger_imbalance view stays empty) |
| Ledger.TransferEffect | src/control_plane/app.py:297-304 | exactly the two balances move, by the amount, and the journal grows by this transaction alone |
| Ledger.TransferAnswers | src/control_plane/app.py:279-296 | which answer a transfer gets: replayed on a used key, posted exactly when the payer is not checked, or exists, is active and stays above minus its credit, and otherwise the first of these that fails; accounts are opened exactly under a new key |
| Ledger.TransferKeepsCover | src/control_plane/app.py:290-296 | no transfer pushes an organization below minus its credit, as only SYSTEM pays unenforced |
| Ledger.TransferIdempotent | src/control_plane/app.py:279-281 | a used key answers every later call with a positive amount, whatever its other arguments, with the old transaction and changes nothing |
| Ledger.ZeroSum | migrations/004_ledger_hardening.sql:72-81 | all balances of consistent books sum to zero |
| Interleaving.AdvanceKeeps | src/control_plane/app.py:278-304 | every interleaved statement keeps locks exclusive, values read under lock current and keys unique |
| Interleaving.RunIsSerial | src/control_plane/app.py:278-304 | in every reachable state of any number of interleaved sessions the committed books equal the committed transfers applied one at a time in commit order, each one acceptable there: no lost update, no overspending, one transaction a key |
| Interleaving.CommitIsSerial | src/control_plane/app.py:284-304 | a commit equals running the whole transfer alone at that moment |
| Interleaving.RefusalIsSerial | src/control_plane/app.py:290-296 | a refused payer is refused by the atomic transfer too, unless the key was used meanwhile |
| Interleaving.NoDeadlock | src/control_plane/app.py:284-293 | while any transfer is unfinished some session can execute its next statement, if every transfer has an account row |
| Interleaving.StepKeepsReady | src/control_plane/app.py:282-288 | once every transfer has an account row on one side, that holds for the rest of the run |
| Interleaving.DeadlockIff | src/control_plane/app.py:282-293 | nobody can go on exactly when every unfinished session awaits an account row that another one has inserted; the lock order rules out every other deadlock |
| Interleaving.AwaitedLacksBoth | src/control_plane/app.py:245-250 | a session that is awaited while waiting itself has no committed account row on either side |
| Interleaving.AllTransfersEnd | src/control_plane/app.py:278-304 | however they are scheduled, sessions execute at most twelve statements each, and a schedule that cannot go on has finished them all |
| Interleaving.MissingAccountsDeadlock | src/control_plane/app.py:245-250 | from any state, among any other sessions, two opposite transfers between owners without account rows can come to await each other |
| Interleaving.EmbraceStays | src/control_plane/app.py:245-250 | then they do so for good, whatever anybody else does, until one of them is lost |
| Answers.AnswersFit | src/control_plane/app.py:278-304 | in every run, a session that ended and was not lost ended at a moment at which the atomic transfer gives its answer: posted with these books, replayed, or refused for this reason; it clashes, or is refused where by then a replay would be due, only when a transfer between other accounts has taken its key |
| Answers.ClashIsTaken | src/control_plane/app.py:288-289 | a clash means that the key is on file, in a transfer between other accounts |
| Answers.AloneIsAtomic | src/control_plane/app.py:278-304 | a session that nobody disturbs can always go on, ends after at most twelve statements, and then its answer and the books are those of the atomic transfer |
| Cascades.CommitIsAlone | src/control_plane/app.py:342-349 | committing a session of many transfers equals running them one after another, alone, at the moment of the commit |
| Cascades.SessionsAreSerial | src/control_plane/app.py:342-349 | with sessions of any number of transfers, refused ones included, the committed books of every reachable state are those of the committed sessions run one at a time in commit order |
| Cascades.ExecuteIsAlone | src/control_plane/app.py:342-346 | each transfer of a session does, on what the session sees, what the atomic transfer does there, whether posted, replayed or refused |
| Cascades.UndisturbedIsSerial | src/control_plane/app.py:342-349 | a session that nobody disturbs commits the books of its transfers run alone, one after another |
| Resellers.AddRootKeeps | src/control_plane/api.py:43 | creating a top-level organization keeps the closure table equal to the ancestor relation |
| Resellers.AddChildKeeps | src/control_plane/api.py:42-46 | creating a child keeps row (a,d,k) present exactly when the k-th parent of d is a, without duplicates, and contracts exactly at the children |
| Resellers.DepthIsHeight | src/control_plane/app.py:269-273 | depth_of is the number of parents, and the deepest row names the top of the branch |
| Resellers.DepthAllowedIff | src/control_plane/app.py:271-277 | the depth check passes exactly when one more level is within the configured maximum and that of the top of the branch |
| Resellers.EdgesAreClosurePath | src/control_plane/app.py:305-312 | edges never cycles or misses a contract, has length depth_of, and its i-th hop is the pair of closure rows at depths i and i+1 |
| Resellers.EdgesAnswers | src/control_plane/app.py:305-312 | in any tree, well-formed or not: edges climbs while the organizations are new and have active contracts, and ends with a chain at the top, or names the cycle or the missing contract it met |
| Resellers.ChainLinks | src/control_plane/app.py:305-312 | the hops of a chain join child to parent and never revisit anybody |
| Resellers.ChildWithinLimits | src/control_plane/app.py:271-277 | a new child keeps all depths within the limits of their tops if and only if the depth check passes |
| Resellers.RootWithinLimits | src/control_plane/app.py:271-274 | a new top-level organization keeps all depths within their limits |
| Settlement.SettlesIff | src/control_plane/app.py:341-349 | with fresh keys a chain settles if and only if every level is active, owes at least 1 and its balance, credit and what it just received cover it |
| Settlement.SettleEffect | src/control_plane/app.py:343-346 | a settled chain moves exactly its charges and files exactly its transactions |
| Settlement.MovedAt | src/control_plane/app.py:343-346 | the leaf loses its charge; each middle level keeps the difference of two charges |
| Settlement.MovedTop | src/control_plane/app.py:343-346 | the top gains the last charge |
| Settlement.SettleJournal | src/control_plane/app.py:280-281 | for the levels it finishes, the loop files exactly the charges the journal still misses |
| Settlement.SettleKeepsBooks | src/control_plane/app.py:343-349 | however far it gets, settling keeps the books and moves nothing in or out of SYSTEM |
| Settlement.SettleStops | src/control_plane/app.py:342-349 | a chain stops at the first level that owes nothing or cannot pay; lack of credit is told apart from every other reason and comes with the sum of the charges before it |
| Metering.ObserveKeepsMeter | src/control_plane/app.py:324-352 | every reading keeps accepted intervals contiguous up to the checkpoint and the anomaly count equal to the run of lower readings, below the confirmation number |
| Metering.DeltasAddUp | src/control_plane/app.py:339-352 | the accepted intervals of an epoch are disjoint, in order, and add up to checkpoint minus baseline |
| Readings.ReadingMoves | src/control_plane/app.py:328-351 | in every run: the first reading becomes checkpoint and baseline; a lower one is only noted, unless it is the last of the confirming ones, when it becomes checkpoint and baseline itself; any other becomes the checkpoint if it is accepted |
| Readings.MarkWasRead | src/control_plane/app.py:328-351 | in every run the checkpoint is a reading that was kept, the last one to move it |
| Readings.LowReadingAnswers | src/control_plane/app.py:328-338 | a reading that is not above the checkpoint settles for nothing and moves no money |
| Readings.GrowthAnswers | src/control_plane/app.py:339-352 | what a growth answers: a price error and nothing done; settled with one charge a level; held with the sum owed below the level short of credit; or the reason the first hindered level has |
| Readings.BatchSurvivesIff | src/control_plane/api.py:92-102 | a batch survives if and only if no reading fails in the shop the ones before it left and none meets a first checkpoint the batch has not sent yet; then it leaves what its readings leave, and otherwise nothing |
| Epochs.RunPrefixed | src/control_plane/app.py:339-352 | in every state of every run, kept partial settlements included: for every pair of readings the levels charged are the first ones of the chain, and all of them once the pair is accepted |
| Epochs.MarkFallsIffConfirmed | src/control_plane/app.py:328-341 | in every run the checkpoint moves down exactly with the last of the confirming consecutive lower readings, and a reading that is not above it moves no money |
| Epochs.ChargedUnlessRepeated | src/control_plane/app.py:345 | an accepted growth is charged on exactly the levels this pair of readings has not been charged on before: none if it was accepted before, all if no settlement of it was ever begun |
| Epochs.FirstEpochNeverRepeats | src/control_plane/app.py:330-339 | before the first reset no pair of readings can be accepted twice |
| Epochs.GrowthSettlesIff | src/control_plane/api.py:86-90 | a growth settles if and only if it can be priced, the levels that have paid for this pair before still owe something, and every other level can pay; then exactly the charges of the others move, and otherwise ledger and checkpoint are unchanged |
| Epochs.ChargesAreReadings | src/control_plane/app.py:345 | the charges of a level from a checkpoint number exactly the distinct readings at which it paid |
| Epochs.ChargedSince | src/control_plane/api.py:92-102 | since any earlier state of the run, a level has been charged from a checkpoint once for each reading at which it has paid since |
| Epochs.SameReadingCompletes | src/control_plane/api.py:92-102 | after any number of interruptions of one reading, lower readings and other requests, its acceptance leaves every level charged once |
| Epochs.ChargedOnceIffSameReading | src/control_plane/api.py:92-102 | after any interruptions and anything else, an accepted reading leaves a level charged exactly once since j if and only if no other kept reading has got through that level from the same checkpoint since |
| Drift.RunPriced | src/control_plane/domain.py:15-16 | while the coefficient is steady, every charge filed, for an accepted reading or not, is the price of its own interval at its level's rate |
| Drift.EpochGain | src/control_plane/app.py:345 | what a level was charged in an epoch is what is on file for its growths, less what was on file for them before it began, plus what was charged for readings never accepted |
| Drift.EpochDrift | src/control_plane/app.py:339-351 | over any epoch read in n growing steps that sum, corrected by the shortfall and the abandoned charges, is the price of the epoch's total up to n/2 rials |
| Drift.ShortfallIff | src/control_plane/app.py:280-281 | the shortfall is the prices of exactly those growths whose pair of readings was on file before the epoch began, and zero if and only if there is none |
| Drift.SettledOnFileIff | src/control_plane/api.py:86-90 | if every kept reading of a run was settled, a level is on file for a pair of readings exactly when the pair was accepted |
| Drift.SettledEpochDrift | src/control_plane/app.py:339-351 | if every reading kept in an epoch was settled and none of its growths was on file before, each level paid the price of the total up to n/2 rials |
| Drift.FirstEpochDrift | src/control_plane/app.py:339-351 | in the first epoch the same bound holds with no condition on what was on file |
| Witnesses.BatchChargesTwice | src/control_plane/api.py:97-98 | a run from the empty system: a gibibyte held in a batch, a top-up, two gibibytes; the leaf is charged twice for the first one |
| Witnesses.ResetMakesFree | src/control_plane/app.py:280-281 | a run from the empty system: a gibibyte, a confirmed reset to zero, a gibibyte again; the second is accepted and moves no money |
| Witnesses.TwiceByTheLaw | src/control_plane/api.py:92-102 | that run is one to which `Epochs.ChargedOnceIffSameReading` applies, and the other reading it speaks of is there |
| Witnesses.ShortByTheLaw | src/control_plane/app.py:280-281 | that run is one to which `Drift.EpochDrift` applies: in the epoch after the reset the leaf owes one rial, is charged none, and the shortfall is one |
| Sessions.Session.Account | src/control_plane/app.py:245-250 | inserts a wallet at zero exactly when there is none |
| Sessions.Session.Transfer | src/control_plane/app.py:278-304 | the statements of transfer, with two relative updates, do what Ledger.Transfer says |
| Sessions.Session.EdgesOf | src/control_plane/app.py:305-312 | the while loop over out, cur and seen returns the chain, or the first error on it |
| Sessions.Session.CreateRoot | src/control_plane/web_api.py:242-244 | organization, closure row and account of a top-level organization |
| Sessions.Session.CreateChild | src/control_plane/web_api.py:295-300 | the shared statements of the five creators: depth check or not, organization, copied closure rows, contract, account |
| Sessions.Session.PayChain | src/control_plane/app.py:342-349 | the transfer loop, with the pending sum it reports when it stops |
| Sessions.Session.Observe | src/control_plane/app.py:324-352 | one reading does what Metering.Observe says, branch by branch |
| Sessions.Session.Usage | src/control_plane/api.py:86-90 | settled and committed, or rolled back completely |
| Sessions.Session.Poll | src/control_plane/worker.py:22-27 | the readings of a polling round are settled or rolled back one by one |
| Sessions.Session.UsageBatch | src/control_plane/api.py:93-102 | the batch commits what held settlements had paid, and nothing at all when anything else fails; it reports how many of its readings settled and how many were held |
| Sessions.Session.Fund | src/control_plane/api.py:53-55 | a funding call posts once per key and commits |
| Outbox.Queue.Enqueue | src/control_plane/outbox.py:34-40 | adds an event unless one with its key is pending |
| Outbox.Queue.Claim | src/control_plane/outbox.py:43-57 | claims the first due events in (next_attempt_at, id) order, passing over rows that others have locked |
| Outbox.Queue.Complete | src/control_plane/outbox.py:60-64 | marks the event done whoever holds it |
| Outbox.Queue.Retry | src/control_plane/outbox.py:67-80 | one more failed attempt: dead at the limit, else pending after the backoff, or an index violation |
| Outbox.Queue.ReclaimStale | src/control_plane/outbox.py:178-188 | takes all stale claims back in one write, or none |
| Outbox.Queue.RunOnce | src/control_plane/outbox.py:191-209 | one pass of a worker over a handler table, with its statistics, or the crash on the index |
| Delivery.ClaimTakesDue | src/control_plane/outbox.py:43-54 | claim takes distinct due events that nobody has locked, at most the limit, and writes only their claim |
| Delivery.ClaimTakesFirst | src/control_plane/outbox.py:45-49 | what is claimed comes before everything due and unlocked that is not, and less than the limit is claimed only when nothing such is left |
| Delivery.BackoffGrows | src/control_plane/outbox.py:78 | waits never shrink from attempt to attempt and never exceed the cap |
| Delivery.ReclaimFailsIff | migrations/004_ledger_hardening.sql:35 | taking back stale claims violates the unique index exactly when one of them has a pending or stale twin |
| Delivery.ActionKeeps | src/control_plane/outbox.py:34-80 | every action of every worker keeps the index, the attempt and claim counts and the ownership of claims, and leaves done and dead events alone |
| Delivery.RunDelivers | src/control_plane/outbox.py:43-80 | under the lease no event is held by two live workers, at most one event a key is pending, attempts reach the limit exactly at death, and claims = failures + take-backs + completions + the present one |
| Delivery.RunAbsorbs | src/control_plane/outbox.py:178-209 | under the lease done and dead are final in every run |
| Delivery.ClaimLostIff | src/control_plane/outbox.py:178-188 | an action makes a worker lose what it holds exactly when it takes stale claims back while a live worker has outlived one |
| Delivery.ClaimCanBeOutlived | src/control_plane/outbox.py:43-57 | such a state is reached by one claim and the passing of the timeout |
| Delivery.LateWorkerRevives | src/control_plane/outbox.py:67-80 | from every such state another worker can complete the event, and the late one then sends it back to work or declares it dead, unless a twin waits and attempts are left |
| Delivery.StoppedForever | src/control_plane/outbox.py:178-188 | once a stale claim has such a twin, every later run crashes first thing and no event is ever touched again |
| Delivery.DeadWorkerStopsQueue | src/control_plane/outbox.py:34-40 | queueing an event again while a dead worker holds it is enough |
| Delivery.OrderTopicIsUnhandled | src/control_plane/outbox.py:170-175 | panel_order.approved is not in the handler table |
| Delivery.UnhandledOnlyDies | src/control_plane/outbox.py:194-203 | an event of a topic without a handler is never done; each claiming run that does not crash is one failed attempt, so it is dead after MAX_ATTEMPTS of them and, if no run crashes, not before |
| Delivery.StatsAddUp | src/control_plane/outbox.py:194-209 | claimed events are counted as done, retried or dead, each once |
| Retries.FailureRests | src/control_plane/outbox.py:67-80 | a failure writes one row: dead after the last attempt, and otherwise due exactly from the base wait, doubled with every failure after the first up to the cap, on |
| Retries.NobodyTakesEarly | src/control_plane/outbox.py:43-80 | in every run under the lease a failed event stays as it is until its wait is over; nobody claims it |
| Retries.QueuedIsDue | src/control_plane/outbox.py:34-40 | an event is queued fresh and due at once, unless one with its key is pending |
| Retries.RunSettles | src/control_plane/outbox.py:178-209 | a run crashes exactly when it cannot take the stale claims back; otherwise it frees every outlasted claim, claims the first due events, completes those whose handler succeeds, fails the others, touches nothing else, and its statistics count just that |
| Catalog.NextKeeps | src/control_plane/web_api.py:1186-1322 | every catalog request keeps plans on servers and shelves of their seller, shelf names unique, and ordered plans in existence |
| Catalog.ListedIffOrderable | src/control_plane/web_api.py:875-898 | in every reachable catalog a plan is shown exactly when it can be ordered on its own server, and it can be ordered on no other |
| Catalog.ClosingHides | src/control_plane/web_api.py:1220-1230 | closing a shelf hides exactly its plans, reopening shows exactly what was shown, and the plans stay as they were |
| Catalog.ClosedHides | src/control_plane/web_api.py:1220-1230 | until somebody reopens a closed shelf, nothing on it is shown, whatever else is requested meanwhile |
| Publishing.RefusedIffHarmful | src/control_plane/web_api.py:1129-1322 | a catalog request is refused only when it is about somebody else's row or a server that does not work, or when serving it would break the order of the catalog |
| Publishing.RowsThen | src/control_plane/web_api.py:1129-1322 | a request changes the row it names as it says, and no other |
| Publishing.ListedByTheLastWords | src/control_plane/web_api.py:875-885 | what strangers see, from the requests alone: an existing plan last opened by its seller, on a working server last put on sale by its owner, and on no shelf or one last opened |
| Catalog.Tables.SaleablePlanRows | src/control_plane/web_api.py:875-885 | the loop returns exactly the listed plans, cheapest first |
| Catalog.Tables.SetPanelSaleable | src/control_plane/web_api.py:1129-1138 | only the owner of an active server puts it on sale or takes it off |
| Catalog.Tables.CreatePlanCategory | src/control_plane/web_api.py:1186-1194 | a shelf with a name its seller does not use yet |
| Catalog.Tables.UpdateCategory | src/control_plane/web_api.py:1205-1217 | renames the seller's own shelf unless the name is taken by another |
| Catalog.Tables.SetCatalogStatus | src/control_plane/web_api.py:1220-1230 | opens or closes the seller's own shelf or plan |
| Catalog.Tables.DeleteCategory | src/control_plane/web_api.py:1243-1252 | refuses to delete a shelf that still has plans |
| Catalog.Tables.CreateCatalogPlan | src/control_plane/web_api.py:1269-1278 | a plan on the seller's own server and shelf |
| Catalog.Tables.UpdateCatalogPlan | src/control_plane/web_api.py:1289-1300 | moves or reprices the seller's own plan under the same checks |
| Catalog.Tables.DeleteCatalogPlan | src/control_plane/web_api.py:1312-1322 | refuses to delete a plan that was ever ordered |
| Limiter.RateLimiter.Allow | src/control_plane/observability.py:93-106 | prunes, refuses or admits, and clears an overfull table, as the function Admit says |
| Limiter.RateLimiter.Reset | src/control_plane/observability.py:108-110 | forgets every caller |
| Limiter.AdmittedAreSpread | src/control_plane/observability.py:93-106 | between clears, any limit+1 admitted calls of one caller in a row span strictly more than the window |
| Limiter.RefusedIffFull | src/control_plane/observability.py:98-102 | a call is refused exactly when limit calls were admitted within the window before it, and never more were |
| Limiter.TableIsBounded | src/control_plane/observability.py:103-105 | the table never holds more than 50,000 callers, and an admission drops it only when it would hold one more |
| Limiter.NoLimitNoRefusal | src/control_plane/observability.py:93-95 | a limit of zero or less admits everybody |
| Office.Counter.CreateReseller | src/control_plane/telegram_consumer.py:542-561 | creates a child with or without the depth check and commits, and says which one it created |
| Office.Counter.SetResellerStatus | src/control_plane/web_api.py:605-617 | only the direct parent switches a reseller between active and suspended, and says whether it did |
| Office.Counter.FundWallet | src/control_plane/api.py:53-55 | a funding call is answered, posting only under a new key; it is exactly when the organization exists |
| Office.Counter.AskFunding | src/control_plane/web_api.py:475-482 | files a pending request |
| Office.Counter.DecideFundingRequest | src/control_plane/web_api.py:501-524 | decided once, by the direct parent, or by the root for a top-level organization; approval pays from SYSTEM, and says whether anything changed |
| Office.Counter.ApplyAdjustment | src/control_plane/web_api.py:655-669 | credits from SYSTEM unenforced, or takes back enforced, by the sign of the amount |
| Office.Counter.AskAdjustment | src/control_plane/web_api.py:675-703 | limited to oneself and direct children; the root's own is applied in the same commit or not filed at all, and says whether it was filed |
| Office.Counter.DecideCorrection | src/control_plane/web_api.py:641-735 | expired ones are closed as such, an inapplicable one stays open, others are rejected or executed, and says whether it was decided |
| Office.Counter.CreatePanelOrder | src/control_plane/web_api.py:908-932 | open server and open plan only; a plan order is quoted at once from the catalog, and says whether it was placed |
| Office.Counter.AdvanceCustomerOrder | src/control_plane/web_api.py:968-974 | the three steps of the requester, on the flow and on the own order, and says whether it moved |
| Office.Counter.QuotePanelOrder | src/control_plane/web_api.py:1027-1037 | the seller sets the terms of a pending order, and says whether it did |
| Office.Counter.RejectPanelOrder | src/control_plane/web_api.py:1052-1060 | the seller rejects an order that is still open, and says whether it did |
| Office.Counter.OpenAccount | src/control_plane/web_api.py:1085-1103 | the customer's organization, closure rows, contract, account and binding |
| Office.Counter.ApprovePanelOrder | src/control_plane/web_api.py:1072-1116 | account and opening balance in one commit, or nothing, and says which |
| Treasury.ObserveKeepsShop | src/control_plane/app.py:324-352 | whatever becomes of a reading, it changes the shop by usage charges and meters only and keeps it in order |
| Treasury.BatchKeepsShop | src/control_plane/api.py:93-102 | so does a batch, including what it keeps of interrupted settlements |
| Treasury.UsageConserves | src/control_plane/app.py:343-346 | usage leaves the total held by organizations unchanged |
| Reconciliation.FundingGranted | src/control_plane/web_api.py:516-519 | granting files the one transaction and adds its amount to the total of approved requests |
| Reconciliation.ApprovalExecuted | src/control_plane/web_api.py:655-669 | executing files the one transaction and adds its signed amount |
| Reconciliation.OrderGranted | src/control_plane/web_api.py:1104-1107 | approving files the one transaction of the quoted amount and adds it |
| Reconciliation.CallFiled | src/control_plane/api.py:55 | a funding call is on file from its first use on, once |
| Worlds.StepKeeps | src/control_plane/web_api.py:474-1116 | every request of every entry point keeps books, tree, meters, catalog, and every machine reconciled with the journal |
| Worlds.AlwaysOk | src/control_plane/web_api.py:474-1116 | the same in every state any requests can lead to |
| Worlds.BooksAlwaysBalance | migrations/004_ledger_hardening.sql:72-81 | in every such state no drift, two-sided positive transactions under distinct keys, zero sum, and nobody below minus its credit |
| Worlds.SystemExplained | src/control_plane/web_api.py:517 | minus the SYSTEM balance equals approved funding requests plus approved orders plus executed corrections with their sign plus API funds once per key, and is what the organizations hold |
| Requests.StepDone | src/control_plane/web_api.py:474-1116 | every request of the desk does what a table of requests says in rows, balances and journal: exactly when it takes effect, exactly what it leaves, and that it leaves everything else alone |
| Requests.RunDone | src/control_plane/web_api.py:474-1116 | the same after any requests at all |
| Requests.FlowIsAhead | src/control_plane/web_api.py:796-802 | ORDER_FLOW is one step ahead, rejection from any open state, and cancellation before payment is declared |
| Origins.OrderWasPlaced | src/control_plane/web_api.py:908-932 | every order was placed by its customer, at its server and plan, when both were on sale |
| Origins.TermsWereQuoted | src/control_plane/web_api.py:1027-1037 | in every run the amount, credit and rate of an order without a plan are those its seller quoted while it was pending, by the owner of its server at that time; an order that was never quoted has none |
| Origins.QuoteStands | src/control_plane/web_api.py:1027-1037 | a seller's quote of a pending order is taken, with exactly these three numbers, and stands in every later state |
| Origins.FundingWasAsked | src/control_plane/web_api.py:475-482 | every funding request was asked for, for its organization and at its amount |
| Origins.CoefficientWasSet | src/control_plane/app.py:341 | the coefficient a price is reckoned with is the one last set for that server, by its owner or when it was added, and one when there is none |
| Origins.OrgWasFounded | src/control_plane/app.py:33-52 | every organization has the parent, the credit and the contract price of the request that created it |
| Origins.ActiveIffEven | src/control_plane/web_api.py:605-617 | an organization is active exactly when its direct parent has switched it an even number of times |
| Origins.BindingWasMade | src/control_plane/web_api.py:1097-1103 | every binding is what was bound, and never changes |
| Histories.HistoryIsPath | src/control_plane/web_api.py:796-802 | every order history is a path of ORDER_FLOW of at most four steps from pending, or from quoted for a plan order |
| Histories.TermsFrozen | src/control_plane/web_api.py:1027-1037 | once past pending an order's terms never change, and an approved order never changes at all |
| Histories.PlanPriceStands | src/control_plane/web_api.py:920-926 | a plan order costs rate times volume times days as published when placed, whatever is repriced later |
| Histories.ApprovedIffAccount | src/control_plane/web_api.py:1072-1107 | an order is approved if and only if it names its organization, which then exists as a child of the server's owner with the quoted credit and rate, and a single transaction of exactly the quoted positive amount |
| Histories.FundedIffFiled | src/control_plane/web_api.py:501-524 | a funding request is approved if and only if its one transaction exists, with its amount and wallet |
| Histories.ExecutedIffFiled | src/control_plane/web_api.py:641-735 | a correction is executed if and only if its one transaction exists with its amount and sign, and it was decided before expiry |
| Histories.DecidedOnce | src/control_plane/web_api.py:507-508 | a decision is final, and what was asked for never changes |
| Histories.MakerIsNotChecker | src/control_plane/web_api.py:686-699 | a correction ever committed as pending and later executed was approved by someone other than its requester |
| Histories.DecidedByParent | src/control_plane/web_api.py:512-514 | in every run a funding request is approved or rejected only by its direct parent, or by the root where there is none |
| Histories.ApprovedWasPaid | src/control_plane/web_api.py:954-974 | in every run an approved order was first confirmed, then declared paid by its own customer, and last approved by the owner of its server |
| Histories.ClosedByRoot | src/control_plane/web_api.py:641-652 | in every run a correction is closed by one act of the root, and expires exactly when that act comes at or after its expiry; or it is the root's own |
| Histories.AskedInOwnBranch | src/control_plane/web_api.py:681-699 | in every run a correction was asked for by its requester, for the own organization or a direct child |
| Runs.NothingIsRenegotiated | src/control_plane/app.py:33-52 | parents, credit limits and contracts never change after creation, in any run |
| Runs.CheckedRunsStayShallow | src/control_plane/app.py:271-277 | in every run whose creators all make the depth check, every depth stays within the limit of its top |
| Runs.BlankBeforeBound | src/control_plane/app.py:324-329 | before a binding exists nothing is metered or charged for it |
| Runs.DeskRunIsUsageRun | src/control_plane/app.py:324-352 | from the request that binds a binding on, every run of all requests, batches included, is a run in the sense of Epochs |
| Runs.ChargesExplained | src/control_plane/app.py:339-352 | in every run of all requests: for every pair of readings of a binding the levels charged are the first ones of its chain, all of them once the pair is accepted, and nobody else is charged |
| Runs.PollIsRequests | src/control_plane/worker.py:11-27 | a polling round is the same readings requested one after another |

## Left out

- HTTP routing, form parsing, security headers, health and metrics text, and the permission table: a request enters the model after them, with validated numbers as positive or natural types.
- Calls to server panels, Telegram and Redis: of a topic that has a handler, the handler is an oracle that succeeds or fails; `handle_billing_hold` suspending the binding is not modelled, so a binding is read whatever its status.
- Sessions.Session.Observe: does not write the reset event (src/control_plane/app.py:337); `Outbox` models that table and its rules, and no balance, checkpoint or row of the kernel depends on it.
- Sessions.Session.Usage: does not write the hold event after the rollback (src/control_plane/api.py:89), for the same reason.
- Sessions.Session.UsageBatch: does not write hold and reset events; two confirmed resets of one binding inside one batch would queue the same event twice and lose the batch, which the model lets pass.
- Sessions.Session.Poll: which bindings a round reads, the skipping of inactive servers and the hold events are outside it; its input is the readings of the round.
- Office.Counter.DecideCorrection: does not write the approval.granted event (src/control_plane/web_api.py:733).
- Office.Counter.ApprovePanelOrder: whether the slug is free is an input, since names and slugs of organizations are not modelled; the panel_order.approved event is not written.
- Histories.ApprovedIffAccount: the organization of an order is the one the order names, since slugs are not modelled.
- Actors beyond their identity, memberships, audit rows and timestamps other than those of expiry, claims and the limiter.
- The session flag that lets the balance trigger accept a write (migrations/004_ledger_hardening.sql:60-70): every balance write of the model is a transfer's.
- Interleaving.NoDeadlock: sessions here run one transfer each; a cascade locks account pairs one after another, sorted only within each pair, and is not free of deadlock.
- Cascades.SessionsAreSerial: one step is a whole locked section of `transfer`; that its statements may be interleaved is shown by Interleaving for sessions of one transfer.
- Identifiers are natural numbers: accounts are found by owner, and rows of the desk by position. Only in `Interleaving` do account rows have ids, since lock order depends on them.
- One clock reading a request: `claim` stamps all its events alike, and a correction is executed at the time its expiry was checked.
- Settings are arbitrary constants of their type; a confirmation count below one acts like one, and a claim timeout, an attempt limit or an approval lifetime below one is not modelled.
- Delivery.RunDelivers: outbox operations are atomic steps; rows that another worker has locked meanwhile are an input of the claim.
- The 64-bit columns: amounts are unbounded integers, while the database refuses what does not fit (a plan at the largest permitted rate, volume and duration would not).
- The unique pair of server and server login of bindings; a new binding only has to be new and the only one of its organization.
- Catalog.Tables.SaleablePlanRows: the order of equal prices is the database's.
- Worlds.StepKeeps: requests are atomic here; interleaving is proved for `transfer` and for sessions of transfers only.
