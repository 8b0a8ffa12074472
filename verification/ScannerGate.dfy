/** The scanner gate: admission questions answered from a ledger snapshot, and why the
    answer is exactly what the ledger itself would say. */
module ScannerGate {
  import opened Wrappers
  import opened ActiveSignalLedger
  import opened LedgerInvariants

  datatype Reason = Eligible | StyleFull | PairActive

  datatype Decision = Decision(reason: Reason, style: Style, canonicalPair: string, availableSlots: int)

  function StyleAvailability(doc: Document, style: Style): int {
    STYLE_CAPACITY - |ActiveOf(doc.signals, style)|
  }

  function ActiveCanonicalPairs(canon: Canon, doc: Document): set<Option<string>> {
    set s | s in doc.signals && doc.signals[s].state == EntryActive :: canon(doc.signals[s].publication.symbol)
  }

  function EvaluateCandidate(canon: Canon, doc: Document, style: Style, pair: Id): Result<Decision, Error> {
    if canon(pair).None? then Err(PairInvalid)
    else if !Valid(canon, doc) then Err(LedgerCorrupt)
    else
      var available := StyleAvailability(doc, style);
      var reason :=
        if available == 0 then StyleFull
        else if canon(pair) in ActiveCanonicalPairs(canon, doc) then PairActive
        else Eligible;
      Ok(Decision(reason, style, canon(pair).value, available))
  }

  function EnteredOf(doc: Document, style: Style): set<Id> {
    set s | s in doc.signals && doc.signals[s].state == EntryActive && doc.signals[s].publication.mode == style
  }

  ghost predicate PairEntered(canon: Canon, doc: Document, pair: Id) {
    exists s :: s in doc.signals && doc.signals[s].state == EntryActive
             && canon(doc.signals[s].publication.symbol) == canon(pair)
  }

  /** How many of the style's three slots no entered signal holds; full when none is left; the pair
      active when an entered signal of any style has it. */
  ghost predicate GateAnswers(canon: Canon, doc: Document, style: Style, pair: Id, answer: Result<Decision, Error>) {
    && |EnteredOf(doc, style)| <= 3
    && answer
       == (if canon(pair) == None then Err(PairInvalid)
           else Ok(Decision(if |EnteredOf(doc, style)| == 3 then StyleFull
                            else if PairEntered(canon, doc, pair) then PairActive else Eligible,
                            style, canon(pair).value, 3 - |EnteredOf(doc, style)|)))
  }

  /** That is what the gate answers on every reachable ledger. */
  lemma {:induction false} GateMeans(canon: Canon, createdAt: int, calls: seq<Call>, style: Style, pair: Id)
    ensures var doc := Run(canon, EmptyLedger(createdAt), calls);
            GateAnswers(canon, doc, style, pair, EvaluateCandidate(canon, doc, style, pair))
  {
    ReachableInv(canon, createdAt, calls);
    SnapshotMeans(canon, Run(canon, EmptyLedger(createdAt), calls), style, pair);
  }

  lemma SnapshotMeans(canon: Canon, doc: Document, style: Style, pair: Id)
    requires Valid(canon, doc)
    ensures GateAnswers(canon, doc, style, pair, EvaluateCandidate(canon, doc, style, pair))
  {
    StyleHolds(doc.signals, style);
    PairsEntered(canon, doc, pair);
    assert ActiveOf(doc.signals, style) == EnteredOf(doc, style);
  }

  lemma StyleHolds(signals: map<Id, Signal>, style: Style)
    requires WithinCapacity(signals)
    ensures |ActiveOf(signals, style)| <= 3
  {
  }

  lemma PairsEntered(canon: Canon, doc: Document, pair: Id)
    ensures canon(pair) in ActiveCanonicalPairs(canon, doc) <==> PairEntered(canon, doc, pair)
  {
  }

  /** A publication reserved under fresh identities and then entered, at the current revisions. */
  datatype Trial = Trial(
    transactionId: TransactionId, reservationId: Id, entryId: Id, publication: Publication, at: int)

  ghost predicate Fresh(doc: Document, trial: Trial) {
    && IsTransactionId(trial.transactionId) && trial.transactionId !in doc.transactions
    && IsIdentifier(trial.reservationId) && trial.reservationId !in doc.transitions
    && IsIdentifier(trial.entryId) && trial.entryId !in doc.transitions && trial.entryId != trial.reservationId
    && IsIdentifier(trial.publication.signalId) && IsIdentifier(trial.publication.deliveryId)
    && IsIdentifier(trial.publication.symbol)
    && !TransactionTaken(doc.transactions, trial.publication.signalId, trial.publication.deliveryId)
  }

  function TrialReserve(doc: Document, trial: Trial): Call {
    Reserve(doc.revision, trial.transactionId, trial.reservationId, trial.publication, trial.at, true)
  }

  function TrialEntry(doc: Document, trial: Trial): Call {
    Entry(doc.revision, trial.entryId, trial.publication.signalId, trial.at, trial.at, false)
  }

  function Attempt(canon: Canon, doc: Document, trial: Trial): Outcome {
    match Apply(canon, doc, TrialReserve(doc, trial))
    case Err(error) => Err(error)
    case Ok(reserved) => Apply(canon, reserved, TrialEntry(reserved, trial))
  }

  ghost predicate NonePrepared(doc: Document) {
    forall t :: t in doc.transactions ==> doc.transactions[t].state != Prepared
  }

  lemma FreshIsNew(canon: Canon, doc: Document, trial: Trial)
    requires Inv(canon, doc) && Fresh(doc, trial) && canon(trial.publication.symbol).Some?
    ensures NonePrepared(doc) ==> NewReservation(canon, doc, TrialReserve(doc, trial))
    ensures !NonePrepared(doc) ==> Apply(canon, doc, TrialReserve(doc, trial)) == Err(ReconciliationRequired)
  {
    forall s | s in doc.signals
      ensures s != trial.publication.signalId
      ensures doc.signals[s].publication.deliveryId != trial.publication.deliveryId
    {
      var t :| Owns(doc, t, s);
      assert ValidSignal(canon, s, doc.signals[s]);
    }
  }

  function Reserved(doc: Document, trial: Trial): Document {
    Bumped(CommitOccupancy(WithCandidate(doc, TrialReserve(doc, trial)), trial.transactionId, trial.at), trial.at)
  }

  lemma ReservedForEntry(canon: Canon, doc: Document, trial: Trial)
    requires Inv(canon, doc) && Fresh(doc, trial) && canon(trial.publication.symbol).Some? && NonePrepared(doc)
    ensures Apply(canon, doc, TrialReserve(doc, trial)) == Ok(Reserved(doc, trial))
    ensures Inv(canon, Reserved(doc, trial))
    ensures trial.publication.signalId !in doc.signals
  {
    FreshIsNew(canon, doc, trial);
    ReserveCases(canon, doc, TrialReserve(doc, trial));
    CallKeeps(canon, doc, TrialReserve(doc, trial));
  }

  /** A reservation changes neither the slots held nor the pairs active. */
  lemma ReservedGuards(canon: Canon, doc: Document, trial: Trial)
    requires trial.publication.signalId !in doc.signals
    ensures var next := Reserved(doc, trial).signals;
            && (forall mode :: ActiveOf(next, mode) == ActiveOf(doc.signals, mode))
            && (PairHeldByAnother(canon, next, trial.publication.signalId, canon(trial.publication.symbol))
                <==> canon(trial.publication.symbol) in ActiveCanonicalPairs(canon, doc))
  {
    var next := Reserved(doc, trial).signals;
    forall mode ensures ActiveOf(next, mode) == ActiveOf(doc.signals, mode) { }
    if canon(trial.publication.symbol) in ActiveCanonicalPairs(canon, doc) {
      var s :| s in doc.signals && doc.signals[s].state == EntryActive
            && canon(doc.signals[s].publication.symbol) == canon(trial.publication.symbol);
      assert s in next && next[s] == doc.signals[s];
    }
  }

  /** What the ledger answers to an attempt, from what the gate answers. */
  ghost predicate Agrees(decision: Result<Decision, Error>, attempt: Outcome) {
    match decision
    case Err(error) => attempt == Err(PairInvalid) && error == PairInvalid
    case Ok(d) =>
      match d.reason
      case Eligible => attempt.Ok?
      case StyleFull => attempt == Err(StyleCapacityFull)
      case PairActive => attempt == Err(GlobalPairAlreadyActive)
  }

  /** On a reachable ledger the gate is exact: with nothing prepared it says eligible if and
      only if reserving a fresh signal and then entering it is accepted, and otherwise it
      names the reason the entry is refused for; with something prepared every fresh
      reservation is refused until that is reconciled. */
  lemma {:induction false} GateIsExact(canon: Canon, createdAt: int, calls: seq<Call>, trial: Trial)
    requires Fresh(Run(canon, EmptyLedger(createdAt), calls), trial)
    ensures var doc := Run(canon, EmptyLedger(createdAt), calls);
            var decision := EvaluateCandidate(canon, doc, trial.publication.mode, trial.publication.symbol);
            && (NonePrepared(doc) ==> Agrees(decision, Attempt(canon, doc, trial)))
            && (!NonePrepared(doc) && decision.Ok? ==> Attempt(canon, doc, trial) == Err(ReconciliationRequired))
  {
    var doc := Run(canon, EmptyLedger(createdAt), calls);
    ReachableInv(canon, createdAt, calls);
    if canon(trial.publication.symbol).Some? {
      FreshIsNew(canon, doc, trial);
      if NonePrepared(doc) { AttemptAgrees(canon, doc, trial); }
    }
  }

  lemma {:induction false} AttemptAgrees(canon: Canon, doc: Document, trial: Trial)
    requires Inv(canon, doc) && Fresh(doc, trial) && canon(trial.publication.symbol).Some? && NonePrepared(doc)
    ensures Agrees(EvaluateCandidate(canon, doc, trial.publication.mode, trial.publication.symbol),
                   Attempt(canon, doc, trial))
  {
    ReservedForEntry(canon, doc, trial);
    ReservedGuards(canon, doc, trial);
    ReservedIsPending(doc, trial);
    var reserved := Reserved(doc, trial);
    EntryAnswers(canon, reserved, TrialEntry(reserved, trial));
    GuardsAgree(canon, doc, trial, MarkEntryActive(canon, reserved, TrialEntry(reserved, trial)));
  }

  lemma ReservedIsPending(doc: Document, trial: Trial)
    requires Fresh(doc, trial)
    ensures var next := Reserved(doc, trial);
            && trial.publication.signalId in next.signals && trial.entryId !in next.transitions
            && next.signals[trial.publication.signalId].state == PublishedPendingEntry
            && next.signals[trial.publication.signalId].publication == trial.publication
  {
  }

  /** The gate asks of the ledger what an entry would ask. */
  lemma GuardsAgree(canon: Canon, doc: Document, trial: Trial, outcome: Outcome)
    requires Valid(canon, doc) && canon(trial.publication.symbol).Some?
    requires if |ActiveOf(doc.signals, trial.publication.mode)| >= STYLE_CAPACITY then outcome == Err(StyleCapacityFull)
             else if canon(trial.publication.symbol) in ActiveCanonicalPairs(canon, doc) then
               outcome == Err(GlobalPairAlreadyActive)
             else outcome.Ok?
    ensures Agrees(EvaluateCandidate(canon, doc, trial.publication.mode, trial.publication.symbol), outcome)
  {
    assert forall mode :: |ActiveOf(doc.signals, mode)| <= STYLE_CAPACITY;
  }

  /** How an entry at the current revision, under a fresh transition, is answered. */
  lemma {:induction false} EntryAnswers(canon: Canon, doc: Document, call: Call)
    requires Inv(canon, doc) && call.Entry? && call.signalId in doc.signals && IsIdentifier(call.transitionId)
    requires call.expectedRevision == doc.revision && call.transitionId !in doc.transitions
    requires doc.signals[call.signalId].state == PublishedPendingEntry
    ensures var record := doc.signals[call.signalId];
            var outcome := MarkEntryActive(canon, doc, call);
            if |ActiveOf(doc.signals, record.publication.mode)| >= STYLE_CAPACITY then outcome == Err(StyleCapacityFull)
            else if PairHeldByAnother(canon, doc.signals, call.signalId, canon(record.publication.symbol)) then
              outcome == Err(GlobalPairAlreadyActive)
            else outcome.Ok?
  {
    EntryCases(canon, doc, call);
    if EntryAdmitted(canon, doc, call) {
      EnteredKeeps(canon, doc, call);
      BumpKeeps(canon, EntryMove(doc, call), call.updatedAt);
    } else {
      assert forall mode :: |ActiveOf(doc.signals, mode)| <= STYLE_CAPACITY;
    }
  }
}
