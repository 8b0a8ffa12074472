/** The active-signal ledger document, the checks made of it, and what each call of its
    interface makes of a document: a rejection, or the document that is returned.

    Digests are injective, so a derived transaction identity is modelled as the payload it
    digests.  Timestamps are integers. */
module ActiveSignalLedger {
  import opened Wrappers
  import opened CanonicalPair

  const STYLE_CAPACITY: nat := 3
  const TOTAL_CAPACITY: nat := 9

  /** A text given as an identity, a symbol or a reason: `Blank` when it is empty or only
      whitespace, which the ledger never accepts. */
  datatype Id = Blank | Named(text: string)

  datatype Style = Swing | Intraday | Scalp

  datatype State =
    | PublishedPendingEntry | EntryActive
    | ClosedProfit | ClosedStopLoss | ClosedManual | RejectedByOwner | Cancelled | Expired | Invalidated
  {
    predicate IsTerminal() { this != PublishedPendingEntry && this != EntryActive }
  }

  /** The immutable identity of a published signal, shared by its record and its transaction. */
  datatype Publication = Publication(
    signalId: Id, deliveryId: Id, mode: Style, symbol: Id,
    publishedAt: int, sourceHash: nat, payloadHash: nat)

  datatype Signal = Signal(
    publication: Publication, state: State,
    entryAt: Option<int>, terminalAt: Option<int>, terminalReason: Option<Id>,
    lastTransitionId: Id, createdAt: int, updatedAt: int)

  datatype Operation = OpReserve | OpEntry | OpTerminal

  datatype Transition = Transition(
    transitionId: Id, operation: Operation, signalId: Id,
    fromState: Option<State>, toState: State,
    occurredAt: int, terminalReason: Option<Id>, ledgerRevision: nat)

  datatype TransactionId = Given(id: Id) | Derived(publication: Publication)

  datatype TransactionState = Prepared | OccupancyCommitted | Aborted

  datatype Transaction = Transaction(
    transactionId: TransactionId, publication: Publication, reservationTransitionId: Id,
    state: TransactionState, createdAt: int, updatedAt: int,
    abortedAt: Option<int>, abortReason: Option<Id>)

  datatype Document = Document(
    revision: nat, createdAt: int, updatedAt: int,
    signals: map<Id, Signal>,
    transitions: map<Id, Transition>,
    transactions: map<TransactionId, Transaction>)

  datatype Error =
    | LedgerNotFound | LedgerCorrupt | LockAcquisitionFailed | AtomicWriteFailed
    | SignalIdInvalid | SignalAlreadyExists | SignalIdCollision | PublicationIdCollision
    | TransactionIdInvalid | TransitionIdCollision | ExpectedRevisionMismatch
    | StyleImmutable | IdentityImmutable | PairInvalid
    | LifecycleTransitionInvalid | TerminalSignalReopenForbidden | TerminalReasonInvalid
    | StyleCapacityFull | TotalCapacityFull | GlobalPairAlreadyActive
    | ReconciliationRequired

  type Outcome = Result<Document, Error>

  /** The canonical-pair authority.  Nothing about the ledger depends on which one it is;
      the one in use is `AUTHORITY`. */
  type Canon = Id -> Option<string>

  const AUTHORITY: Canon := (symbol: Id) => if symbol.Named? then Normalized(symbol.text) else None

  function EmptyLedger(createdAt: int): Document {
    Document(0, createdAt, createdAt, map[], map[], map[])
  }

  // ---------------------------------------------------------------- validation

  predicate IsIdentifier(id: Id) {
    id.Named?
  }

  predicate IsTransactionId(id: TransactionId) {
    id.Given? ==> IsIdentifier(id.id)
  }

  predicate StateFieldsAgree(record: Signal) {
    match record.state
    case PublishedPendingEntry => record.entryAt.None? && record.terminalAt.None? && record.terminalReason.None?
    case EntryActive => record.entryAt.Some? && record.terminalAt.None? && record.terminalReason.None?
    case _ => record.terminalAt.Some? && record.terminalReason.Some? && IsIdentifier(record.terminalReason.value)
  }

  predicate ValidSignal(canon: Canon, signalId: Id, record: Signal) {
    && IsIdentifier(signalId)
    && record.publication.signalId == signalId
    && IsIdentifier(record.publication.deliveryId)
    && IsIdentifier(record.publication.symbol)
    && canon(record.publication.symbol).Some?
    && IsIdentifier(record.lastTransitionId)
    && StateFieldsAgree(record)
  }

  predicate ValidTransition(transitionId: Id, transition: Transition, signals: map<Id, Signal>) {
    && IsIdentifier(transitionId)
    && transition.transitionId == transitionId
    && IsIdentifier(transition.signalId)
    && transition.signalId in signals
    && (transition.terminalReason.Some? ==> IsIdentifier(transition.terminalReason.value))
  }

  predicate ValidTransaction(transactionId: TransactionId, transaction: Transaction, signals: map<Id, Signal>) {
    && IsTransactionId(transactionId)
    && transaction.transactionId == transactionId
    && IsIdentifier(transaction.publication.signalId)
    && IsIdentifier(transaction.publication.deliveryId)
    && IsIdentifier(transaction.publication.symbol)
    && IsIdentifier(transaction.reservationTransitionId)
    && (if transaction.state == Aborted
        then transaction.abortedAt.Some? && transaction.abortReason.Some? && IsIdentifier(transaction.abortReason.value)
        else transaction.abortedAt.None? && transaction.abortReason.None?)
    && (transaction.state == OccupancyCommitted ==>
          && transaction.publication.signalId in signals
          && signals[transaction.publication.signalId].publication == transaction.publication)
  }

  predicate DeliveriesDistinct(signals: map<Id, Signal>) {
    forall a, b :: a in signals && b in signals && a != b ==>
      signals[a].publication.deliveryId != signals[b].publication.deliveryId
  }

  predicate ActivePairsDistinct(canon: Canon, signals: map<Id, Signal>) {
    forall a, b :: (a in signals && b in signals && a != b
                    && signals[a].state == EntryActive && signals[b].state == EntryActive) ==>
      canon(signals[a].publication.symbol) != canon(signals[b].publication.symbol)
  }

  /** The signals of a style that occupy a slot. */
  function ActiveOf(signals: map<Id, Signal>, mode: Style): set<Id> {
    set s | s in signals && signals[s].state == EntryActive && signals[s].publication.mode == mode
  }

  function TotalActive(signals: map<Id, Signal>): nat {
    |ActiveOf(signals, Swing)| + |ActiveOf(signals, Intraday)| + |ActiveOf(signals, Scalp)|
  }

  predicate WithinCapacity(signals: map<Id, Signal>) {
    && TotalActive(signals) <= TOTAL_CAPACITY
    && forall mode :: |ActiveOf(signals, mode)| <= STYLE_CAPACITY
  }

  /** What validation demands of the signals. */
  predicate SignalsValid(canon: Canon, signals: map<Id, Signal>) {
    && (forall s :: s in signals ==> ValidSignal(canon, s, signals[s]))
    && DeliveriesDistinct(signals)
    && ActivePairsDistinct(canon, signals)
    && WithinCapacity(signals)
  }

  /** What validation demands of the transitions and the transactions. */
  predicate LogsValid(doc: Document) {
    && (forall t :: t in doc.transitions ==> ValidTransition(t, doc.transitions[t], doc.signals))
    && (forall t :: t in doc.transactions ==> ValidTransaction(t, doc.transactions[t], doc.signals))
  }

  predicate Valid(canon: Canon, doc: Document) {
    SignalsValid(canon, doc.signals) && LogsValid(doc)
  }

  // ---------------------------------------------------------------- calls

  datatype Call =
    | Reserve(expectedRevision: int, transactionId: TransactionId, transitionId: Id,
              publication: Publication, updatedAt: int, durable: bool)
    | Entry(expectedRevision: int, transitionId: Id, signalId: Id,
            entryAt: int, updatedAt: int, requireCurrent: bool)
    | Terminal(expectedRevision: int, transitionId: Id, signalId: Id, terminalState: State,
               terminalAt: int, reason: Id, updatedAt: int, requireCurrent: bool)
    | Reconcile(expectedRevision: int, transactionId: TransactionId, artifactExists: bool,
                artifactSignalId: Option<Id>, artifactDeliveryId: Option<Id>,
                artifactHash: Option<nat>, updatedAt: int, abortReason: Id)

  /** What the bumped document becomes when it is validated before being written. */
  function Persisted(canon: Canon, doc: Document, updatedAt: int): Outcome {
    var next := Bumped(doc, updatedAt);
    if Valid(canon, next) then Ok(next) else Err(LedgerCorrupt)
  }

  function Bumped(doc: Document, updatedAt: int): Document {
    doc.(revision := doc.revision + 1, updatedAt := updatedAt)
  }

  function CandidateError(canon: Canon, call: Call): Option<Error>
    requires call.Reserve?
  {
    if !IsTransactionId(call.transactionId) then Some(TransactionIdInvalid)
    else if !IsIdentifier(call.transitionId) then Some(TransitionIdCollision)
    else if !IsIdentifier(call.publication.signalId) then Some(SignalIdInvalid)
    else if !IsIdentifier(call.publication.deliveryId) then Some(PublicationIdCollision)
    else if !IsIdentifier(call.publication.symbol) then Some(SignalIdInvalid)
    else if canon(call.publication.symbol).None? then Some(PairInvalid)
    else None
  }

  function Candidate(call: Call): Transaction
    requires call.Reserve?
  {
    Transaction(call.transactionId, call.publication, call.transitionId, Prepared,
                call.updatedAt, call.updatedAt, None, None)
  }

  /** The pending record, the reservation transition and the committed transaction. */
  function CommitOccupancy(doc: Document, id: TransactionId, updatedAt: int): Document
    requires id in doc.transactions
  {
    var transaction := doc.transactions[id];
    var publication := transaction.publication;
    var record := Signal(publication, PublishedPendingEntry, None, None, None,
                         transaction.reservationTransitionId, updatedAt, updatedAt);
    var reservation := Transition(transaction.reservationTransitionId, OpReserve, publication.signalId,
                                  None, PublishedPendingEntry, updatedAt, None, doc.revision + 1);
    doc.(signals := doc.signals[publication.signalId := record],
         transitions := doc.transitions[transaction.reservationTransitionId := reservation],
         transactions := doc.transactions[id := transaction.(state := OccupancyCommitted, updatedAt := updatedAt)])
  }

  predicate PendingConflict(transactions: map<TransactionId, Transaction>, signalId: Id, deliveryId: Id) {
    exists t :: t in transactions && transactions[t].state == Prepared
             && (transactions[t].publication.signalId != signalId || transactions[t].publication.deliveryId != deliveryId)
  }

  predicate DeliveryTaken(signals: map<Id, Signal>, deliveryId: Id) {
    exists s :: s in signals && signals[s].publication.deliveryId == deliveryId
  }

  predicate TransactionTaken(transactions: map<TransactionId, Transaction>, signalId: Id, deliveryId: Id) {
    exists t :: t in transactions
             && (transactions[t].publication.signalId == signalId || transactions[t].publication.deliveryId == deliveryId)
  }

  function ExistingSignalError(existing: Publication, publication: Publication): Error {
    if existing.mode != publication.mode then StyleImmutable
    else if existing.symbol != publication.symbol || existing.sourceHash != publication.sourceHash
         || existing.payloadHash != publication.payloadHash then IdentityImmutable
    else SignalAlreadyExists
  }

  function ReservePublishedSignal(canon: Canon, doc: Document, call: Call): Outcome
    requires call.Reserve?
  {
    var publication := call.publication;
    if CandidateError(canon, call).Some? then Err(CandidateError(canon, call).value)
    else if call.transactionId in doc.transactions then
      var existing := doc.transactions[call.transactionId];
      if existing.publication != publication || existing.reservationTransitionId != call.transitionId then
        Err(TransitionIdCollision)
      else if existing.state == Prepared && call.durable then
        Persisted(canon, CommitOccupancy(doc, call.transactionId, call.updatedAt), call.updatedAt)
      else Ok(doc)
    else if call.expectedRevision != doc.revision then Err(ExpectedRevisionMismatch)
    else if PendingConflict(doc.transactions, publication.signalId, publication.deliveryId) then
      Err(ReconciliationRequired)
    else if publication.signalId in doc.signals then
      Err(ExistingSignalError(doc.signals[publication.signalId].publication, publication))
    else if DeliveryTaken(doc.signals, publication.deliveryId) then Err(PublicationIdCollision)
    else if TransactionTaken(doc.transactions, publication.signalId, publication.deliveryId) then
      Err(SignalIdCollision)
    else
      var added := doc.(transactions := doc.transactions[call.transactionId := Candidate(call)]);
      Persisted(canon, if call.durable then CommitOccupancy(added, call.transactionId, call.updatedAt) else added,
                call.updatedAt)
  }

  /** Equal but for the revision at which the transition was recorded. */
  predicate SameTransition(existing: Transition, candidate: Transition) {
    existing.(ledgerRevision := candidate.ledgerRevision) == candidate
  }

  function EntryTransition(doc: Document, call: Call): Transition
    requires call.Entry?
  {
    Transition(call.transitionId, OpEntry, call.signalId, Some(PublishedPendingEntry), EntryActive,
               call.entryAt, None, doc.revision + 1)
  }

  function Entered(record: Signal, call: Call): Signal
    requires call.Entry?
  {
    record.(state := EntryActive, entryAt := Some(call.entryAt),
            lastTransitionId := call.transitionId, updatedAt := call.updatedAt)
  }

  /** A record with its new state, and the transition that took it there. */
  function Moved(doc: Document, record: Signal, transition: Transition): Document {
    doc.(signals := doc.signals[transition.signalId := record],
         transitions := doc.transitions[transition.transitionId := transition])
  }

  predicate PairHeldByAnother(canon: Canon, signals: map<Id, Signal>, signalId: Id, pair: Option<string>) {
    exists s :: s in signals && signals[s].state == EntryActive && s != signalId
             && canon(signals[s].publication.symbol) == pair
  }

  function MarkEntryActive(canon: Canon, doc: Document, call: Call): Outcome
    requires call.Entry?
  {
    if call.signalId !in doc.signals then Err(SignalIdInvalid)
    else if !IsIdentifier(call.transitionId) then Err(TransitionIdCollision)
    else
      var record := doc.signals[call.signalId];
      var current := call.expectedRevision == doc.revision;
      if call.transitionId in doc.transitions then
        if !SameTransition(doc.transitions[call.transitionId], EntryTransition(doc, call)) then
          Err(if current then TransitionIdCollision else ExpectedRevisionMismatch)
        else if call.requireCurrent && !current then Err(ExpectedRevisionMismatch)
        else Ok(doc)
      else if !current then Err(ExpectedRevisionMismatch)
      else if record.state.IsTerminal() then Err(TerminalSignalReopenForbidden)
      else if record.state != PublishedPendingEntry then Err(LifecycleTransitionInvalid)
      else if |ActiveOf(doc.signals, record.publication.mode)| >= STYLE_CAPACITY then Err(StyleCapacityFull)
      else if TotalActive(doc.signals) >= TOTAL_CAPACITY then Err(TotalCapacityFull)
      else if PairHeldByAnother(canon, doc.signals, call.signalId, canon(record.publication.symbol)) then
        Err(GlobalPairAlreadyActive)
      else
        Persisted(canon, Moved(doc, Entered(record, call), EntryTransition(doc, call)), call.updatedAt)
  }

  predicate ReplaysTerminal(existing: Transition, call: Call)
    requires call.Terminal?
  {
    && existing.operation == OpTerminal
    && existing.signalId == call.signalId
    && existing.toState == call.terminalState
    && existing.occurredAt == call.terminalAt
    && existing.terminalReason == Some(call.reason)
  }

  predicate AlreadyEnded(record: Signal, call: Call)
    requires call.Terminal?
  {
    && record.state == call.terminalState
    && record.terminalAt == Some(call.terminalAt)
    && record.terminalReason == Some(call.reason)
  }

  function TerminalTransition(doc: Document, call: Call, fromState: State): Transition
    requires call.Terminal?
  {
    Transition(call.transitionId, OpTerminal, call.signalId, Some(fromState), call.terminalState,
               call.terminalAt, Some(call.reason), doc.revision + 1)
  }

  function Ended(record: Signal, call: Call): Signal
    requires call.Terminal?
  {
    record.(state := call.terminalState, terminalAt := Some(call.terminalAt), terminalReason := Some(call.reason),
            lastTransitionId := call.transitionId, updatedAt := call.updatedAt)
  }

  function TransitionTerminal(canon: Canon, doc: Document, call: Call): Outcome
    requires call.Terminal?
  {
    var current := call.expectedRevision == doc.revision;
    if !call.terminalState.IsTerminal() then Err(LifecycleTransitionInvalid)
    else if !IsIdentifier(call.reason) then Err(TerminalReasonInvalid)
    else if call.transitionId in doc.transitions then
      if !ReplaysTerminal(doc.transitions[call.transitionId], call) then
        Err(if current then TransitionIdCollision else ExpectedRevisionMismatch)
      else if call.requireCurrent && !current then Err(ExpectedRevisionMismatch)
      else Ok(doc)
    else if !current then Err(ExpectedRevisionMismatch)
    else if call.signalId !in doc.signals then Err(SignalIdInvalid)
    else
      var record := doc.signals[call.signalId];
      if record.state.IsTerminal() then
        if AlreadyEnded(record, call) then Ok(doc) else Err(TerminalSignalReopenForbidden)
      else if record.state == EntryActive && call.terminalState == Expired then Err(LifecycleTransitionInvalid)
      else if !IsIdentifier(call.transitionId) then Err(TransitionIdCollision)
      else
        Persisted(canon, Moved(doc, Ended(record, call), TerminalTransition(doc, call, record.state)), call.updatedAt)
  }

  function ReconcilePublicationState(canon: Canon, doc: Document, call: Call): Outcome
    requires call.Reconcile?
  {
    if !IsTransactionId(call.transactionId) then Err(TransactionIdInvalid)
    else if call.expectedRevision != doc.revision then Err(ExpectedRevisionMismatch)
    else if call.transactionId !in doc.transactions then Err(ReconciliationRequired)
    else
      var transaction := doc.transactions[call.transactionId];
      if transaction.state != Prepared then Ok(doc)
      else if call.artifactExists then
        if call.artifactSignalId != Some(transaction.publication.signalId)
           || call.artifactDeliveryId != Some(transaction.publication.deliveryId)
           || call.artifactHash != Some(transaction.publication.payloadHash) then Err(ReconciliationRequired)
        else Persisted(canon, CommitOccupancy(doc, call.transactionId, call.updatedAt), call.updatedAt)
      else if call.artifactSignalId.Some? || call.artifactDeliveryId.Some? || call.artifactHash.Some? then
        Err(ReconciliationRequired)
      else if !IsIdentifier(call.abortReason) then Err(TerminalReasonInvalid)
      else
        var aborted := transaction.(state := Aborted, updatedAt := call.updatedAt,
                                    abortedAt := Some(call.updatedAt), abortReason := Some(call.abortReason));
        Persisted(canon, doc.(transactions := doc.transactions[call.transactionId := aborted]), call.updatedAt)
  }

  function Apply(canon: Canon, doc: Document, call: Call): Outcome {
    match call
    case Reserve(_, _, _, _, _, _) => ReservePublishedSignal(canon, doc, call)
    case Entry(_, _, _, _, _, _) => MarkEntryActive(canon, doc, call)
    case Terminal(_, _, _, _, _, _, _, _) => TransitionTerminal(canon, doc, call)
    case Reconcile(_, _, _, _, _, _, _, _) => ReconcilePublicationState(canon, doc, call)
  }

  /** The document that is on disk after the call. */
  function Next(canon: Canon, doc: Document, call: Call): Document {
    match Apply(canon, doc, call)
    case Ok(next) => next
    case Err(_) => doc
  }

  /** The document after a sequence of calls. */
  function Run(canon: Canon, doc: Document, calls: seq<Call>): Document
    decreases |calls|
  {
    if calls == [] then doc else Next(canon, Run(canon, doc, calls[..|calls| - 1]), calls[|calls| - 1])
  }
}
