# Verified model of the signal ledger, budget, forward-test, observer and swing cores

This project models, in Dafny, the stateful cores of the trading-signal repository and proves what they keep over whole
runs.

- **Active-signal ledger.** A persisted document of published signals, an append-only transition log and two-phase
  publication transactions. Four calls (reserve, entry, terminal, reconcile) take a lock file, re-read, compare the
  revision, mutate, raise the revision by one and replace the file. `ActiveSignalLedger` says what each call makes of a
  document, `LedgerStore` is the class whose methods do it to the file, `LedgerInvariants` proves what every run keeps,
  `ConcurrentLedger` interleaves and crashes the processes. `Registration` is the facade that pre-checks an unlocked
  read; `FacadeRuns` and `FacadeProperties` prove what holds of runs through it; `ScannerGate` is the admission check.
  `LedgerMeaning`, `FacadeMeaning` and `ConcurrentMeaning` say in the fields of the records when each call is accepted,
  what it leaves, why it is refused, when a repeat is accepted, and what a step may change; `LedgerPairs` puts the
  ledger and the pair authority together.
- **Phase 11 budget ledger.** `BudgetControl` holds the immutable ledger and its steps, `BudgetInvariants` the caps over
  every run, `BudgetProperties` the partition of reservations, the additivity of exposure, the count of steps and the
  finality of a stop; `BudgetMeaning` sums the fields that the caps speak of, and says the same of each step.
- **Forward test.** `ForwardOutcome` is the resolver (a class with one artifact, filled in run after run),
  `ForwardWindows` its candle windows and excursions, `ForwardRuns` and `ForwardConfluence` whole histories,
  `ForwardValidator` the validator, `ForwardVerdicts` the two together. `ForwardMeaning` and `ForwardReportMeaning` say
  in seconds, candles and prices what is stored and reported, and why not.
- **Smaller cores.** `PaperObserver` and `PaperObserverProperties` (the first-touch observer), `CanonicalPair` (both
  pair canonicalisers), `SwingResolver` (swing detection and the golden-zone pair), each with a module that states its
  answers in prices, instants and characters: `PaperObserverMeaning`, `CanonicalPairMeaning`, `SwingMeaning`.

Abstractions. Digests are injective, so an identity derived from a digest is the value that was digested. Timestamps are
integers, one for each instant and its one canonical spelling; only the times of the observer's candles keep their
spelling (`Stamp`), because the code compares candle identities as text and sorts by instant. Budget costs are integers in millionths of a dollar, prices and percentages are reals, strings are sequences
of characters. An identity, symbol or reason of the ledger is `Blank` (empty or whitespace, which the ledger refuses) or
`Named`. The ledger theorems hold for every pair canonicaliser (the parameter `canon`), hence for `normalize_pair`.
A fetch of market data is a map from symbols to frames; a symbol outside it is a fetch that fails. A *raw* run is any
sequence of the four ledger calls; a *facade* run reserves only through registration. In a facade run the registered
and replayed flags of a result, which the code computes from two reads, are claimed only with no other writer in
between.

The functions that specify the operations are stated twice: as the code takes its steps, and, in the `Meaning` modules,
by what they come to in record fields, prices, instants and characters, without the guards, totals and touch predicates
that the first statement is made of. The lemmas there prove the two equal on every input or in every run.

Three findings. (1) Resolving a forward-test entry at t1 and again at t2 is *not* always the same as resolving once at t2:
if the later horizons cannot be completed, the single run fails and writes nothing, while the earlier run has already
kept its part. `TwoRunsAreOneExactlyWhen` gives the exact condition and `EarlyRunsCanKnowMore` an input. (2) The
registration code distinguishes a transaction-identity conflict, but on a ledger that was only ever written through the
facade neither the inspector nor the writer ever reports it (`InspectorPredictsWriter`). (3) The paper observer's outcome can
depend on the order in which candles are given: two candles over the same instants, written differently, pass the
duplicate test, and the stable sort leaves them as they came. `SpellingsCanDecide` is an input on which that decides
between entry touched and target reached; `OrderOfInputIsIrrelevant` and `OutcomeIgnoresOrderExactlyWhen` give the exact
conditions, for the evidence and for the outcome.

## Model

| member | source | states |
|---|---|---|
| CanonicalPair.NormalizePair | engine/canonical_pair_v1.py:18-39 | the imperative canonicaliser computes exactly `Normalized`, on every string |
| CanonicalPair.SplitConcatenation | engine/canonical_pair_v1.py:27-31 | the quote loop with its break rebinds the market at the first listed quote that fits, and otherwise leaves it alone |
| CanonicalPair.CanonicalPairForMigration | engine/active_signal_ledger_migration_v2.py:26-39 | the second canonicaliser, step by step, computes exactly `Migrated` |
| CanonicalPair.NormalizesExactlyItsSpellings | engine/canonical_pair_v1.py:23-39 | a value normalizes to B/Q if and only if its cleaned form (whose characters `CanonicalPairMeaning` fixes) is one of the spellings B/Q, B/Q:Q, or a concatenation that no earlier listed quote claims |
| CanonicalPair.Idempotent | engine/canonical_pair_v1.py:18-39 | normalizing a normalized pair gives it back |
| CanonicalPair.SpellingsAgree | engine/canonical_pair_v1.py:10-39 | for every listed quote B/Q and B/Q:Q agree, and BQ agrees with them if and only if not (Q is USD and B ends in "B") |
| CanonicalPair.MigrationAgrees | engine/active_signal_ledger_migration_v2.py:26-39 | whatever the migration accepts the authority maps to the same pair, except an asset against itself, which only the migration accepts |
| CanonicalPair.MigrationAcceptsExactly | engine/active_signal_ledger_migration_v2.py:26-39 | an accepted value is accepted by the migration if and only if it is written with its slash or is a USDT concatenation |
| CanonicalPairMeaning.CompactIsClean | engine/canonical_pair_v1.py:22 | what is left of any text after cleaning holds no whitespace and no small letter |
| CanonicalPairMeaning.SpaceDoesNotMatter | engine/canonical_pair_v1.py:22 | inserting or removing any listed whitespace character anywhere changes neither what a text normalizes nor what it migrates to |
| CanonicalPairMeaning.CaseDoesNotMatter | engine/canonical_pair_v1.py:22 | nor does replacing any letter by its other case |
| CanonicalPairMeaning.NormalizedMeans | engine/canonical_pair_v1.py:18-39 | a text names B/Q, for two distinct tickers of 2 to 20 capitals and digits, iff the text with whitespace left out and small letters made capital is B/Q, or BQ for a listed Q (USD only where B does not end in "B"), either of them alone or with :Q behind it |
| CanonicalPairMeaning.OnlyPairsAreNamed | engine/canonical_pair_v1.py:33-39 | nothing else is ever returned than two distinct tickers with a slash between |
| CanonicalPairMeaning.MigratedMeans | engine/active_signal_ledger_migration_v2.py:26-39 | the same of the migration: B/Q, B/Q:Q, or BQ for USDT, where B and Q need not differ |
| LedgerStore.Capacity | engine/active_signal_ledger_v1.py:329-335 | the counting loop gives, for each style, the number of entered signals |
| LedgerStore.ValidateSignals | engine/active_signal_ledger_v1.py:178-217 | the loop with its sets of deliveries and pairs accepts exactly records that are well-formed with unique deliveries and unique active pairs |
| LedgerStore.ValidateLogs | engine/active_signal_ledger_v1.py:220-281 | the loops over transitions and transactions accept exactly the valid ones |
| LedgerStore.ValidateLedger | engine/active_signal_ledger_v1.py:284-343 | validation accepts exactly the documents that satisfy the declarative `Valid` |
| LedgerStore.LedgerStore.Lock | engine/active_signal_ledger_v1.py:419-448 | the lock is taken if and only if no lock file was there |
| LedgerStore.LedgerStore.Read | engine/active_signal_ledger_v1.py:369-384 | a read returns the file's document, or rejects a missing or invalid one |
| LedgerStore.LedgerStore.Initialize | engine/active_signal_ledger_v1.py:451-459 | a ledger is created empty, and only where there is none |
| LedgerStore.LedgerStore.Reserve | engine/active_signal_ledger_v1.py:559-621 | the locked reserve leaves the file exactly as the specification of the call says, the lock released, or untouched where the lock is held |
| LedgerStore.LedgerStore.EntryActive | engine/active_signal_ledger_v1.py:659-713 | the same of entry |
| LedgerStore.LedgerStore.Terminate | engine/active_signal_ledger_v1.py:716-777 | the same of a terminal transition |
| LedgerStore.LedgerStore.Reconcile | engine/active_signal_ledger_v1.py:780-816 | the same of reconciliation |
| LedgerMeaning.ValidMeans | engine/active_signal_ledger_v1.py:178-343 | a document is valid iff, field by field, its signals and logs are sound, and no 4 signals of a style and no 10 at all are entered |
| LedgerMeaning.ReachableIsSound | engine/active_signal_ledger_v1.py:329-343 | so is every document of every raw run from the empty ledger |
| LedgerMeaning.ReserveMeans | engine/active_signal_ledger_v1.py:559-621 | in every raw run a reservation is accepted iff nothing of the publication is known and nothing prepared, or exactly this transaction is known; the whole document it leaves, field by field |
| LedgerMeaning.EntryMeans | engine/active_signal_ledger_v1.py:659-713 | an entry is accepted iff its signal is pending with fewer than 3 of its style entered and its pair free, or this very entry is on record; the whole document it leaves |
| LedgerMeaning.TerminalMeans | engine/active_signal_ledger_v1.py:716-777 | an ending is accepted iff the signal may end so, this very ending is on record, or the signal ended just so at the current revision; the whole document it leaves |
| LedgerMeaning.ReconcileMeans | engine/active_signal_ledger_v1.py:780-816 | a prepared transaction is committed on matching evidence and aborted on none, a settled one left alone, anything else refused, and the whole document |
| LedgerMeaning.DifferingEndingIsRefused | engine/active_signal_ledger_v1.py:733-743 | a terminal call under a recorded transition identity that differs from the record in operation, signal, state, time or reason is refused, in any document |
| LedgerMeaning.RefusalsMean | engine/active_signal_ledger_v1.py:559-777 | in every raw run a reservation, entry or ending is refused iff it has a fault, and for the first fault in the order of the code |
| LedgerInvariants.EntryCases | engine/active_signal_ledger_v1.py:659-713 | within capacity an entry call changes the document exactly when its guards pass, and the total-capacity guard never decides |
| LedgerInvariants.CallKeeps | engine/active_signal_ledger_v1.py:550-556 | each call keeps the invariant, raises the revision by one when it changes anything, and is never refused by the validation before writing |
| LedgerInvariants.CapacityRespected | engine/active_signal_ledger_v1.py:329-343 | in every raw run no style has more than 3 active signals, the total is at most 9, no two active signals share a canonical pair, deliveries are unique |
| LedgerInvariants.ValidationNeverRefuses | engine/active_signal_ledger_v1.py:550-556 | in every raw run the call guards alone suffice: neither the validation after a mutation nor the total cap ever refuses |
| LedgerInvariants.SignalsAreCommittedTransactions | engine/active_signal_ledger_v1.py:587-621 | in every raw run signals are in bijection with committed transactions, transactions share no signal or delivery, at most one is prepared |
| LedgerInvariants.SettledForever | engine/active_signal_ledger_v1.py:795-816 | committed and aborted transactions never change, and no transaction changes its identity |
| LedgerInvariants.AbortedNeverAppears | engine/active_signal_ledger_v1.py:795-816 | the signal of an aborted transaction never appears in any later ledger |
| Registration.RegisterPublishedSignal | engine/passive_published_signal_registration_v1.py:450-545 | the two-step registration against the file, with no other writer, gives the verdict and the file of `Register`; on an unreadable or locked ledger it changes nothing |
| FacadeRuns.CallLogs | engine/passive_published_signal_registration_v1.py:418-545 | each facade call leaves the ledger alone or appends exactly one fresh transition that accounts for the change |
| FacadeRuns.LogAccountsForRun | engine/active_signal_ledger_v1.py:517-547 | in every facade run the recorded revisions are exactly 1 to the ledger revision, and folding the log from nothing gives every signal's state, times and last transition |
| FacadeRuns.LogUnique | engine/active_signal_ledger_v1.py:517-547 | a document has at most one such log |
| FacadeRuns.TransitionsOnlyGrow | engine/active_signal_ledger_v1.py:646-777 | continuing a facade run only extends the log and never alters a transition |
| FacadeRuns.LegalLogsAreOrderly | engine/active_signal_ledger_v1.py:690-777 | any log whose replay is legal has, per signal, one reserve first, at most one entry, at most one terminal, last, and no expiry after entry |
| FacadeRuns.LifecyclesAreOrderly | engine/active_signal_ledger_v1.py:646-777 | in every facade run each signal has exactly one reserve, at most one entry, at most one terminal; terminal states are absorbing and expiry never follows entry |
| FacadeProperties.CallTouchesOnlyItsSignal | engine/active_signal_ledger_v1.py:646-777 | a facade call alters no record but its own signal's, no publication, no terminal record, no existing transition or transaction |
| FacadeProperties.AcceptedCallsReplay | engine/active_signal_ledger_v1.py:587-777 | repeating an accepted register, entry or terminal call at any later point of a facade run, after any other calls, leaves the document unchanged; that it is accepted is `FacadeMeaning.RepeatsAreAccepted` |
| FacadeProperties.InspectorPredictsWriter | engine/passive_published_signal_registration_v1.py:346-447 | on every facade ledger the read-only inspector at the current revision determines what the writer answers and does: present iff replayed, the same conflict class, registers one revision on iff nothing is registered |
| LedgerPairs.EnteredPairsDiffer | engine/active_signal_ledger_v1.py:308-318 | with the pair authority in use, in every raw run each recorded symbol is a text that names a pair of two distinct tickers, and no two entered signals are written as names of the same pair, in whatever spelling |
| FacadeMeaning.RepeatsAreAccepted | engine/active_signal_ledger_v1.py:674-743 | once an entry or ending is accepted and on record, repeating it at any later point of a facade run is accepted and changes nothing; with the current revision required, accepted exactly at it |
| FacadeMeaning.RepeatedRegistration | engine/passive_published_signal_registration_v1.py:450-545 | registering again at the current revision, after any other facade calls, is a replay while the signal is pending and fails closed afterwards, and changes nothing |
| FacadeMeaning.InspectionAndRegistrationMean | engine/passive_published_signal_registration_v1.py:306-545 | on every facade ledger the inspector answers exactly what the signals, transitions and reservations show, and registration gives the verdict and the whole document that follow from it |
| FacadeMeaning.RejectionsAreClassified | engine/passive_published_signal_registration_v1.py:282-303 | which ledger rejections are reported as which conflict, and that all others are reported as pending |
| ScannerGate.GateIsExact | engine/owner_blueprint_scanner_gate_v1.py:43-61 | on every reachable ledger with nothing prepared the gate says eligible iff reserving a fresh signal and entering it is accepted, and otherwise names the reason the entry is refused for; with something prepared every fresh reservation is refused |
| ScannerGate.GateMeans | engine/owner_blueprint_scanner_gate_v1.py:29-61 | on every reachable ledger the gate answers 3 less the entered signals of the style as available, full at 0, the pair active iff an entered signal of any style has it, else eligible |
| ConcurrentLedger.ExclusionAndNoLostUpdate | engine/active_signal_ledger_v1.py:387-459 | under every schedule of processes with crashes at most one is in the critical section, each document is an accepted call's result on its predecessor, revisions count 0, 1, 2 and so name one document |
| ConcurrentLedger.EachWriteIsItsOwnCall | engine/active_signal_ledger_v1.py:550-621 | a process about to write holds the result of its own job on the document in the file at that moment, and its write puts exactly that result there |
| ConcurrentLedger.HistoryOnlyGrows | engine/active_signal_ledger_v1.py:387-416 | what has been written stays in the history |
| ConcurrentLedger.StaleLockFreezes | engine/active_signal_ledger_v1.py:419-448 | a lock file left by a crash stops every later write for ever |
| ConcurrentLedger.PrecheckHoldsAtCommit | engine/passive_published_signal_registration_v1.py:469-500 | when a registration is about to write a new transaction, the document it pre-checked without the lock is the one it replaces, so the pre-check still holds |
| ConcurrentLedger.ConcurrentFacadeIsSequential | engine/passive_published_signal_registration_v1.py:450-545 | every document that concurrent facade processes produce is the result of a sequential facade run |
| ConcurrentMeaning.CallOnFileMeans | engine/active_signal_ledger_v1.py:369-448 | a call does its work iff the lock is free and the file holds a sound document; otherwise it is refused for its arguments, the lock or the file, in that order |
| ConcurrentMeaning.StepsMean | engine/active_signal_ledger_v1.py:387-448 | in every reachable world a step changes only its own process; the lock file appears only by exclusive creation and goes only when its holder unlinks it; the ledger file changes only by a replacement under the lock, over what was read |
| ConcurrentMeaning.AloneDoesItsJob | engine/active_signal_ledger_v1.py:451-621 | a process left alone with a free lock finishes its job, gives the lock back and leaves in the file what the sequential initialization, call or registration leaves |
| ConcurrentMeaning.MishapsFreeze | engine/active_signal_ledger_v1.py:419-448 | from every reachable world a crash of the process that holds the lock, or an unlinking that fails, leaves the lock, and nothing is ever written again under any later schedule |
| ConcurrentMeaning.MishapsElsewhereAreHarmless | engine/active_signal_ledger_v1.py:419-448 | giving up, a rejection under the lock, and a crash outside it with a restart leave the process idle, the file as it was, and the lock free if it was held and else as it was |
| BudgetControl.CommittedFor | engine/phase_11_budget_control_v1.py:702-713 | the filtering loop sums exactly the resolved costs of a scope |
| BudgetControl.ReservedFor | engine/phase_11_budget_control_v1.py:715-726 | the filtering loop sums exactly the actively reserved costs of a scope |
| BudgetInvariants.SettleOne | engine/phase_11_budget_control_v1.py:688-700 | settling one reservation takes exactly its own amount out of what is held |
| BudgetInvariants.ExposureSplits | engine/phase_11_budget_control_v1.py:702-726 | exposure is additive over any disjoint split of a scope |
| BudgetInvariants.ReserveExposure | engine/phase_11_budget_control_v1.py:728-808 | a new reservation raises the exposure of each scope by its own amount there |
| BudgetInvariants.UsageExposure | engine/phase_11_budget_control_v1.py:859-919 | a resolved usage trades the reserved amount for the spent one, never more; an uncertain one changes no exposure |
| BudgetInvariants.ReleaseExposure | engine/phase_11_budget_control_v1.py:886-898 | a release takes out exactly what was held |
| BudgetInvariants.StepKeeps | engine/phase_11_budget_control_v1.py:659-686 | a step keeps the invariant, has its effect or none, and the constructor's own checks never refuse what the guards admit |
| BudgetInvariants.ReachableWithinCaps | engine/phase_11_budget_control_v1.py:728-808 | in every run from the empty ledger the total, provider, model and per-run costs, both token totals, the calls and the calls per run are within their caps |
| BudgetProperties.Partition | engine/phase_11_budget_control_v1.py:603-622 | in every run from the empty ledger each reservation is exactly one of active, released, used: released without a usage record, used with one record that names its cost, active with none or one that names no cost |
| BudgetProperties.TotalIsTheSumOverRuns | engine/phase_11_budget_control_v1.py:603-625 | in every run from the empty ledger total exposure, in cost and in tokens, is the sum over the run identities that hold a reservation |
| BudgetProperties.TotalIsTheSumOverProvidersAndModels | engine/phase_11_budget_control_v1.py:603-625 | and the sum over the two providers, and over the three models, in every run from the empty ledger |
| BudgetProperties.UncertainStaysCounted | engine/phase_11_budget_control_v1.py:900-919 | a reservation with an uncertain usage stays active and counted in full for the rest of every run, with the circuit shut |
| BudgetProperties.ReservationsReplayForever | engine/phase_11_budget_control_v1.py:728-738 | repeating a reservation is accepted unchanged at any later point; another under either of its keys is refused |
| BudgetProperties.ClosedForever | engine/phase_11_budget_control_v1.py:739-740 | once the circuit leaves OPEN it never returns, no reservation is added, no call is authorized, no exposure grows |
| BudgetProperties.AuthorizationIsExact | engine/phase_11_budget_control_v1.py:810-841 | a call is authorized under an identity iff the policy admits it and that is the active reservation made for this very call |
| BudgetProperties.UsesAndReleasesAreBounded | engine/phase_11_budget_control_v1.py:843-898 | in every run from the empty ledger usages and releases together never exceed reservations |
| BudgetProperties.StepsAreBounded | engine/phase_11_budget_control_v1.py:659-686 | a run makes at most 3 * maximum_call_count + 1 effective steps, `sequence` counts exactly them, stops are at most one more than uncertain usages |
| BudgetMeaning.CommittedOfAny | engine/phase_11_budget_control_v1.py:702-713 | of any usage records the committed amount is the sum of the fields of those that name a cost and are resolved or reconciled as released, in the scope |
| BudgetMeaning.ExposureMeans | engine/phase_11_budget_control_v1.py:603-625 | in every run the exposure of any scope is the sum of the actual costs of usages that name one and the costs of reservations neither released nor so used, and likewise both token counts |
| BudgetMeaning.CapsHold | engine/phase_11_budget_control_v1.py:728-808 | in every run those sums are within the total, Anthropic, DeepSeek, Opus, Sonnet, primary and run caps and both token caps, and the reservations within both call caps |
| BudgetMeaning.StepsMoveSums | engine/phase_11_budget_control_v1.py:728-932 | each step that changes the ledger moves those sums: a reservation adds its amount, a commit trades it for what was used, a release takes it out, an uncertain outcome and a stop change nothing |
| BudgetMeaning.ReserveMeans | engine/phase_11_budget_control_v1.py:728-808 | a reservation already made is accepted unchanged, another under its keys refused, a new one accepted iff its terms and every cap admit it in those sums; the ledger it leaves |
| BudgetMeaning.CommitMeans | engine/phase_11_budget_control_v1.py:843-884 | a usage is committed iff it is a resolved success bound to an unsettled reservation and within its amounts and times; the ledger it leaves |
| BudgetMeaning.ReconcileMeans | engine/phase_11_budget_control_v1.py:900-919 | an uncertain outcome is recorded iff it is one, of an unsettled reservation; it shuts the circuit |
| BudgetMeaning.ReleaseMeans | engine/phase_11_budget_control_v1.py:886-898 | a release is accepted iff its reservation is there without a usage, and changes nothing the second time; the ledger it leaves |
| BudgetMeaning.StopMeans | engine/phase_11_budget_control_v1.py:921-929 | a stop is accepted for the policy's own reasons and shuts the circuit once; the ledger it leaves |
| BudgetMeaning.AuthorizationMeans | engine/phase_11_budget_control_v1.py:810-841 | every answer of an authorization: the reservation it names, or the first condition that fails |
| BudgetMeaning.RefusalsMean | engine/phase_11_budget_control_v1.py:728-932 | in every run a step is refused iff it has a fault, and for the first fault in the order of the code |
| BudgetMeaning.ConstructorChecksMean | engine/phase_11_budget_control_v1.py:572-589 | for any parts a ledger value is constructed iff it has as many reservation identities as reservations, as many usage identities as usages, and releases only its own reservations |
| ForwardOutcome.GetEligibleUnresolvedHorizons | engine/forward_outcome_resolver_v4.py:324-355 | the nested loops give, by symbol, the due and unresolved horizons |
| ForwardOutcome.SelectExactClosedCandleWindow | engine/forward_outcome_resolver_v4.py:358-402 | the cursor loop terminates, and a window is returned iff its rows are the expected opens in order, without duplicates |
| ForwardOutcome.MergeHorizonOnce | engine/forward_outcome_resolver_v4.py:454-474 | a new horizon is added, an equal one ignored, a different one refused with the candidate as it was |
| ForwardOutcome.CalculatePending | engine/forward_outcome_resolver_v4.py:594-633 | all due horizons of a candidate are computed before any is merged; the first failure is the answer |
| ForwardOutcome.MergePending | engine/forward_outcome_resolver_v4.py:635-655 | pending results are all merged and counted, or the candidate is put back |
| ForwardOutcome.ResolveWorkingCopy | engine/forward_outcome_resolver_v4.py:577-655 | the loop over the working copy resolves every candidate or fails |
| ForwardOutcome.ResolutionFile.ResolveEntryArtifact | engine/forward_outcome_resolver_v4.py:511-668 | one run leaves the artifact and report of `Resolve`; a failed run leaves the artifact as it was |
| ForwardWindows.OpensAreContiguous | engine/forward_outcome_resolver_v4.py:363-372 | a span of k candles has exactly the k contiguous four-hour opens |
| ForwardWindows.WindowPrefix | engine/forward_outcome_resolver_v4.py:358-402 | where a window is complete, every shorter one is its prefix |
| ForwardWindows.ComputableExactlyWhen | engine/forward_outcome_resolver_v4.py:358-433 | a horizon can be computed iff the reference price is positive, no timestamp of the frame is repeated, and the frame holds a candle at each contiguous open, in ascending order |
| ForwardWindows.ResultMeans | engine/forward_outcome_resolver_v4.py:405-451 | a horizon's result is taken from the frame's own candles at its contiguous opens: the last close, the highest high, the lowest low, and each percentage times the reference price is 100 times the difference |
| ForwardWindows.ExcursionsWiden | engine/forward_outcome_resolver_v4.py:405-451 | from one horizon to a longer one the best excursion never falls and the worst never rises, in price and percent |
| ForwardWindows.ReturnIsWithinExcursions | engine/forward_outcome_resolver_v4.py:405-451 | for well-formed candles the return lies between worst and best excursion, in price and percent |
| ForwardConfluence.CanAdvanceExactlyWhen | engine/forward_outcome_resolver_v4.py:584-633 | the market can complete d horizons iff that holds of the fetched frame of every candidate |
| ForwardConfluence.RunFrom | engine/forward_outcome_resolver_v4.py:557-661 | a run does nothing when nothing is due, else fills in every due horizon of every candidate, or fails and writes nothing, exactly as the market can complete the last due horizon |
| ForwardConfluence.RunKeepsLevels | engine/forward_outcome_resolver_v4.py:454-474 | no run loses or alters a result, and all candidates stay at one level |
| ForwardConfluence.ResolvedSetsArePrefixes | engine/forward_outcome_resolver_v4.py:324-355 | after any history of runs over any markets the resolved horizons are the first n of h4, h8, h12, the same n for every candidate, with the targets of their contracts |
| ForwardConfluence.TwoRunsAreOneExactlyWhen | engine/forward_outcome_resolver_v4.py:511-668 | resolving at t1 then t2 leaves what resolving once at t2 leaves iff the later due horizons can be completed or are there, or the first run changes nothing |
| ForwardConfluence.AnyHistoryThenTwoRuns | engine/forward_outcome_resolver_v4.py:511-668 | the same over one fixed market after any history of earlier runs |
| ForwardConfluence.RepeatedRunChangesNothing | engine/forward_outcome_resolver_v4.py:557-575 | a run repeated over the same market at the same time changes nothing |
| ForwardConfluence.EarlyRunIsKept | engine/forward_outcome_resolver_v4.py:596-610 | where only the first candle is there, the single later run leaves nothing and the two runs leave an artifact |
| ForwardConfluence.EarlyRunsCanKnowMore | engine/forward_outcome_resolver_v4.py:596-610 | a concrete entry, market and pair of times on which the two artifacts differ |
| ForwardMeaning.OpenedMeans | engine/forward_outcome_resolver_v4.py:41-141 | the artifact a first run opens, field by field |
| ForwardMeaning.TakenUpMeans | engine/forward_outcome_resolver_v4.py:144-264 | an artifact that is there is taken up as it is iff its identity and candidates are the entry's and its horizons are known and rightly labelled |
| ForwardMeaning.StartRefusalMeans | engine/forward_outcome_resolver_v4.py:41-264 | why a run does not start: the first fault of the entry or of the artifact, candidate by candidate |
| ForwardMeaning.EligibleMeans | engine/forward_outcome_resolver_v4.py:324-355 | of any candidates a symbol is fetched iff one of them is owed an outcome due 8, 12 or 16 hours after the reference opened, and for what the last such one is owed |
| ForwardMeaning.MergeMeans | engine/forward_outcome_resolver_v4.py:454-474 | results are merged iff none contradicts another or what is there; then everything is in and the count is that of the horizons added |
| ForwardMeaning.ComputationRefusalMeans | engine/forward_outcome_resolver_v4.py:358-433 | why a horizon is not computed: a repeated timestamp, the wrong number of candles at its opens, their order, or a price that is not positive |
| ForwardMeaning.ResultsAreTrue | engine/forward_outcome_resolver_v4.py:405-451 | after any history of runs over any markets every stored result was computed in one of them, when due, from that run's frame, and is true of it: the candles at the hours, the last close, the extremes, and percentages that times the reference price are 100 times the differences |
| ForwardMeaning.RunMeans | engine/forward_outcome_resolver_v4.py:511-668 | after any history a run succeeds iff nothing new is due or the market shows every candidate's candles in order up to what is due; then the artifact holds what it held and all that is due and the report counts it, else it is as it was |
| ForwardValidator.BuildCandidateReport | engine/forward_test_validator_v4.py:321-375 | the loop over the horizons gives the present, missing and voted ones, or the refusal of a wrong target |
| ForwardValidator.ReportCandidates | engine/forward_test_validator_v4.py:108-129 | the loop reports every candidate and its four tallies add up to the total |
| ForwardValidator.ValidateResolvedArtifact | engine/forward_test_validator_v4.py:88-145 | validation computes `Validation`, with tallies that add up to the number of candidates |
| ForwardVerdicts.VerdictIsTheMajority | engine/forward_test_validator_v4.py:378-421 | a verdict is pending before the third horizon and then is the side that the three returns back more often |
| ForwardVerdicts.ResolverArtifactsPass | engine/forward_test_validator_v4.py:287-348 | every artifact the resolver writes for an accepted entry passes the schema, identity and target checks, and its candidates are all pending or all decided |
| ForwardVerdicts.VerdictIsFinal | engine/forward_test_validator_v4.py:378-400 | once a candidate has a verdict no later run, over any markets at any times, changes the artifact |
| ForwardReportMeaning.ReportMeans | engine/forward_test_validator_v4.py:321-421 | a candidate of any artifact is reported iff its targets are 8, 12 and 16 hours after the reference opened and its trend is known; the horizons listed, each vote, and the majority verdict |
| ForwardReportMeaning.ValidationMeans | engine/forward_test_validator_v4.py:88-318 | an artifact is validated iff it and the entry file it names are sound and belong together, in their fields; every candidate's report, the tallies as numbers of candidates, and completeness |
| ForwardReportMeaning.ValidationRefusalMeans | engine/forward_test_validator_v4.py:159-318 | why a validation is refused: the first fault of the artifact, of the entry file, or of the two together |
| ForwardReportMeaning.VerdictFromCloses | engine/forward_test_validator_v4.py:378-421 | after any history of runs the verdict is pending without the last horizon, and then follows from how many of the three windows' last closes lie over and under the reference price |
| PaperObserver.ValidateAndOrderCandles | engine/paper_signal_observer_v1.py:368-420 | the loop with its identity set keeps or refuses the candles in the code's order of checks, and sorts what it keeps |
| PaperObserver.ObservePaperSignal | engine/paper_signal_observer_v1.py:134-221 | the loop with its breaks, and the two checks after it, compute `Observed` |
| PaperObserverProperties.CollectedExactly | engine/paper_signal_observer_v1.py:380-412 | candles are accepted iff all are well-formed, within the window and of distinct identity as written, and those from the publication on are kept |
| PaperObserverProperties.ObservationMeans | engine/paper_signal_observer_v1.py:134-221 | the outcome is the decision of the earliest deciding candle, input order breaking ties of instants, or the end of the window where none decides |
| PaperObserverProperties.DecisiveDecides | engine/paper_signal_observer_v1.py:134-201 | conversely, there is at most one decisive candle, and where there is one the outcome is its decision |
| PaperObserverProperties.OrderOfInputIsIrrelevant | engine/paper_signal_observer_v1.py:414-420 | the observation, evidence included, is the same for every permutation of the candles iff no two that count share both instants |
| PaperObserverProperties.OutcomeIgnoresOrderExactlyWhen | engine/paper_signal_observer_v1.py:134-201 | the outcome alone is the same for every permutation iff the earliest deciding candles, where several share both instants, decide alike |
| PaperObserverProperties.RefusalIgnoresOrder | engine/paper_signal_observer_v1.py:380-412 | whether candles are refused never depends on their order |
| PaperObserverProperties.SpellingsCanDecide | engine/paper_signal_observer_v1.py:389-420 | two concrete candles over one minute, spelled differently, whose order decides between entry touched and target reached |
| PaperObserverProperties.GrowingWindow | engine/paper_signal_observer_v1.py:203-221 | extending the window leaves every outcome but OBSERVING and EXPIRED_UNTOUCHED as it was, and those become what the new candles alone give |
| PaperObserverProperties.MirroredMarket | engine/paper_signal_observer_v1.py:346-363 | negating prices and exchanging LONG and SHORT mirrors the observation, and validation accepts both or neither |
| PaperObserverMeaning.AcceptedMeans | engine/paper_signal_observer_v1.py:287-446 | an observation is accepted iff stop, zone and targets are in the order of the side, the window and the cancellation start no earlier than the publication, and every candle is sound, no two written alike |
| PaperObserverMeaning.OutcomeMeans | engine/paper_signal_observer_v1.py:134-221 | the whole outcome, in prices: if every candle from the publication on and up to a cancellation stays clear of target, stop and entry zone, the cancellation, the expiry or nothing yet; else what the first candle that reaches any of them reaches |
| PaperObserverMeaning.StatesMean | engine/paper_signal_observer_v1.py:134-221 | each state iff the high and low of that first candle say so, for both sides, and cancelled or expired iff none reaches anything and the instants say so |
| PaperObserverMeaning.LongIsOpenExactlyWhen | engine/paper_signal_observer_v1.py:449-478 | a long publication without a cancellation is open or expired iff every candle that counts has high under tp1, low over the stop, and lies under or over the entry zone |
| PaperObserverMeaning.ShortIsOpenExactlyWhen | engine/paper_signal_observer_v1.py:449-478 | the same of a short one, mirrored |
| PaperObserverMeaning.EvidenceMeans | engine/paper_signal_observer_v1.py:406-420 | the evidence is the candles from the publication on, each once, by close, then open, then input order |
| PaperObserverMeaning.RefusalsMean | engine/paper_signal_observer_v1.py:287-446 | a refusal is for the first fault of the publication, window or cancellation, else for the first fault of the first candle that has one, and there is one iff there is a fault |
| SwingResolver.SwingHighs | engine/market_structure.py:4-11 | the loop returns, ascending, exactly the indices that no neighbour within the window exceeds |
| SwingResolver.SwingLows | engine/market_structure.py:14-21 | the same of lows |
| SwingResolver.Search | engine/golden_zone_swing_resolver.py:22-54 | the reverse search returns the latest anchor with an earlier opposite swing and a positive range, paired with the nearest, and nothing iff there is none |
| SwingResolver.ResolveGoldenZoneSwingPair | engine/golden_zone_swing_resolver.py:7-95 | nothing in a sideways market, an error exactly for an unknown trend, otherwise the answer of the search |
| SwingResolver.SwingsAreNeverRemoved | engine/market_structure.py:4-21 | appending candles never removes a detected swing |
| SwingResolver.AppendingOnlyAdvances | engine/golden_zone_swing_resolver.py:19-91 | appending candles never turns a pair into none, never moves the anchor back, and an unchanged anchor keeps its whole pair |
| SwingResolver.AnswerIsUnique | engine/golden_zone_swing_resolver.py:19-91 | the answer is determined by the candles |
| SwingMeaning.TrendsMean | engine/golden_zone_swing_resolver.py:11-22 | a trend is one of the three words iff it spells it in some case, letter by letter |
| SwingMeaning.CaseOfTrendDoesNotMatter | engine/golden_zone_swing_resolver.py:11 | replacing a letter by its other case does not change how a trend reads, and no small letter is left |
| SwingMeaning.UptrendMeans | engine/golden_zone_swing_resolver.py:19-54 | in an uptrend the answer is the latest candle no lower than its two neighbours on either side that rises from the last such low before it, with both candles' indices, times and prices, and none iff there is none |
| SwingMeaning.DowntrendMeans | engine/golden_zone_swing_resolver.py:56-91 | in a downtrend the latest low that falls from the last such high before it, likewise |

## Left out

- LedgerStore.LedgerStore.Lock: is one attempt; the 25 timed attempts, operating-system errors other than an existing file, and the unlinking on exit (which is `Unlock`) are not in it. `ConcurrentLedger` has the waiting, giving up and failing unlink as steps.
- LedgerStore.LedgerStore.Read: gives one `LedgerCorrupt` for every document that validation refuses, where the code has a reason for each check.
- ForwardVerdicts.ResolverArtifactsPass: is about real numbers; the validator also refuses numbers that are not finite, which the resolver would write if a fetched candle had them.
- File, JSON and temporary-file detail of the ledger: only exclusive creation, replacement, unlinking and crashes are steps; the 25 timed lock attempts are one nondeterministic `GiveUp`.
- Field checks on types, patterns and schemas, which of several failing checks of a stored ledger is reported first, and which of two faults in one candidate's horizons (an unknown one, a mislabelled one) an artifact is refused for.
- `migrate_path` and `migrate_document`: offline, without a lock; only the migration's canonicaliser is modelled.
- Names of the Unicode classes behind upper-casing and whitespace removal: strings are ASCII.
- Decimal rounding of budget costs, and the digest identities of ledger, reservation and usage values.
- `reserve_route`, `reserve_escalation` and other compositions of `reserve_call`: their steps are budget runs already covered.
- A budget ledger built by calling the constructor directly with arbitrary parts: only ledgers reached by steps from the empty one are claimed.
- The observer's payload around the outcome (hashes, identifiers, copied geometry) and its regular-expression checks.
- Binary floating point in excursions and percentages: modelled over reals.
- Failure while writing a resolution artifact: the replacement is taken to be atomic and to succeed.
- `detect_bos`, `detect_choch`, Fibonacci levels, scores and classifiers: pure members that add no state.
- The refill coordinators, passive flow services, Telegram, exchange, news and reporting code: input, output and relabelling around the cores.
