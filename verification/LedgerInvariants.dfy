/** What every run of the four ledger mutators keeps, starting from the empty ledger. */
module LedgerInvariants {
  import opened Wrappers
  import opened ActiveSignalLedger

  /** Signal `s` was put there by the committed transaction `t`. */
  ghost predicate Owns(doc: Document, t: TransactionId, s: Id) {
    && t in doc.transactions && s in doc.signals
    && doc.transactions[t].state == OccupancyCommitted
    && doc.transactions[t].publication == doc.signals[s].publication
  }

  ghost predicate TransactionsDistinct(doc: Document) {
    forall t, u :: t in doc.transactions && u in doc.transactions && t != u ==>
      && doc.transactions[t].publication.signalId != doc.transactions[u].publication.signalId
      && doc.transactions[t].publication.deliveryId != doc.transactions[u].publication.deliveryId
      && !(doc.transactions[t].state == Prepared && doc.transactions[u].state == Prepared)
  }

  ghost predicate SignalsOwned(doc: Document) {
    forall s :: s in doc.signals ==> exists t :: Owns(doc, t, s)
  }

  ghost predicate TransactionsNormalizable(canon: Canon, doc: Document) {
    forall t :: t in doc.transactions ==> canon(doc.transactions[t].publication.symbol).Some?
  }

  ghost predicate Inv(canon: Canon, doc: Document) {
    Valid(canon, doc) && TransactionsDistinct(doc) && SignalsOwned(doc) && TransactionsNormalizable(canon, doc)
  }

  lemma EmptyInv(canon: Canon, createdAt: int)
    ensures Inv(canon, EmptyLedger(createdAt))
  {
  }

  // ---------------------------------------------------------------- single mutations

  lemma {:induction false} BumpKeeps(canon: Canon, doc: Document, updatedAt: int)
    requires Inv(canon, doc)
    ensures Inv(canon, Bumped(doc, updatedAt)) && Persisted(canon, doc, updatedAt) == Ok(Bumped(doc, updatedAt))
  {
    var next := Bumped(doc, updatedAt);
    forall s | s in next.signals ensures exists t :: Owns(next, t, s) {
      var t :| Owns(doc, t, s);
      assert Owns(next, t, s);
    }
  }

  /** Only a committed transaction owns its signal identity. */
  lemma UncommittedUnpublished(canon: Canon, doc: Document, id: TransactionId)
    requires Inv(canon, doc) && id in doc.transactions && doc.transactions[id].state != OccupancyCommitted
    ensures doc.transactions[id].publication.signalId !in doc.signals
    ensures !DeliveryTaken(doc.signals, doc.transactions[id].publication.deliveryId)
  {
    forall s | s in doc.signals
      ensures doc.signals[s].publication.signalId != doc.transactions[id].publication.signalId
      ensures doc.signals[s].publication.deliveryId != doc.transactions[id].publication.deliveryId
    {
      var t :| Owns(doc, t, s);
    }
  }

  function WithTransaction(doc: Document, id: TransactionId, transaction: Transaction): Document {
    doc.(transactions := doc.transactions[id := transaction])
  }

  /** A transaction may be recorded that agrees with the one it replaces, if any, and has nothing
      in common with the others. */
  ghost predicate MayRecord(canon: Canon, doc: Document, id: TransactionId, transaction: Transaction) {
    && transaction.state != OccupancyCommitted && ValidTransaction(id, transaction, doc.signals)
    && canon(transaction.publication.symbol).Some?
    && (id in doc.transactions ==> doc.transactions[id].state == Prepared)
    && forall u :: u in doc.transactions && u != id ==>
         && doc.transactions[u].publication.signalId != transaction.publication.signalId
         && doc.transactions[u].publication.deliveryId != transaction.publication.deliveryId
         && !(doc.transactions[u].state == Prepared && transaction.state == Prepared)
  }

  lemma RecordKeepsOwners(canon: Canon, doc: Document, id: TransactionId, transaction: Transaction)
    requires SignalsOwned(doc) && MayRecord(canon, doc, id, transaction)
    ensures SignalsOwned(WithTransaction(doc, id, transaction))
  {
    var next := WithTransaction(doc, id, transaction);
    forall s | s in next.signals ensures exists t :: Owns(next, t, s) {
      var t :| Owns(doc, t, s);
      assert Owns(next, t, s);
    }
  }

  lemma RecordKeepsLogs(canon: Canon, doc: Document, id: TransactionId, transaction: Transaction)
    requires LogsValid(doc) && MayRecord(canon, doc, id, transaction)
    ensures LogsValid(WithTransaction(doc, id, transaction))
  {
    forall t | t in doc.transactions && t != id ensures ValidTransaction(t, doc.transactions[t], doc.signals) { }
  }

  lemma RecordKeepsDistinct(canon: Canon, doc: Document, id: TransactionId, transaction: Transaction)
    requires TransactionsDistinct(doc) && TransactionsNormalizable(canon, doc) && MayRecord(canon, doc, id, transaction)
    ensures TransactionsDistinct(WithTransaction(doc, id, transaction))
    ensures TransactionsNormalizable(canon, WithTransaction(doc, id, transaction))
  {
  }

  lemma {:induction false} RecordKeeps(canon: Canon, doc: Document, id: TransactionId, transaction: Transaction)
    requires Inv(canon, doc) && MayRecord(canon, doc, id, transaction)
    ensures Inv(canon, WithTransaction(doc, id, transaction))
  {
    RecordKeepsOwners(canon, doc, id, transaction);
    RecordKeepsLogs(canon, doc, id, transaction);
    RecordKeepsDistinct(canon, doc, id, transaction);
  }

  lemma {:induction false} AddKeeps(canon: Canon, doc: Document, call: Call)
    requires Inv(canon, doc) && call.Reserve? && NewReservation(canon, doc, call)
    ensures Inv(canon, WithCandidate(doc, call))
  {
    MayAdd(canon, doc, call);
    RecordKeeps(canon, doc, call.transactionId, Candidate(call));
  }

  lemma MayAdd(canon: Canon, doc: Document, call: Call)
    requires call.Reserve? && NewReservation(canon, doc, call)
    ensures MayRecord(canon, doc, call.transactionId, Candidate(call))
  {
  }

  lemma SameActive(signals: map<Id, Signal>, signals': map<Id, Signal>)
    requires forall s :: s in signals && signals[s].state == EntryActive ==>
                         s in signals' && signals'[s].state == EntryActive && signals'[s].publication == signals[s].publication
    requires forall s :: s in signals' && signals'[s].state == EntryActive ==> s in signals && signals[s].state == EntryActive
    ensures forall mode :: ActiveOf(signals', mode) == ActiveOf(signals, mode)
    ensures TotalActive(signals') == TotalActive(signals)
  {
    forall mode ensures ActiveOf(signals', mode) == ActiveOf(signals, mode) { }
  }

  /** A fresh pending record keeps the signals valid. */
  lemma AddSignalKeeps(canon: Canon, signals: map<Id, Signal>, record: Signal)
    requires SignalsValid(canon, signals) && ValidSignal(canon, record.publication.signalId, record)
    requires record.publication.signalId !in signals && record.state == PublishedPendingEntry
    requires !DeliveryTaken(signals, record.publication.deliveryId)
    ensures SignalsValid(canon, signals[record.publication.signalId := record])
  {
    AddedDeliveries(signals, record);
    AddedPairs(canon, signals, record);
    AddedWithin(signals, record);
  }

  lemma AddedWithin(signals: map<Id, Signal>, record: Signal)
    requires WithinCapacity(signals) && record.publication.signalId !in signals && record.state != EntryActive
    ensures WithinCapacity(signals[record.publication.signalId := record])
  {
    SameActive(signals, signals[record.publication.signalId := record]);
  }

  lemma AddedDeliveries(signals: map<Id, Signal>, record: Signal)
    requires DeliveriesDistinct(signals) && !DeliveryTaken(signals, record.publication.deliveryId)
    ensures DeliveriesDistinct(signals[record.publication.signalId := record])
  {
  }

  lemma AddedPairs(canon: Canon, signals: map<Id, Signal>, record: Signal)
    requires ActivePairsDistinct(canon, signals) && record.state != EntryActive
    ensures ActivePairsDistinct(canon, signals[record.publication.signalId := record])
  {
  }

  lemma {:induction false} CommitKeepsSignals(canon: Canon, doc: Document, id: TransactionId, updatedAt: int)
    requires Inv(canon, doc) && id in doc.transactions && doc.transactions[id].state == Prepared
    ensures SignalsValid(canon, CommitOccupancy(doc, id, updatedAt).signals)
  {
    var transaction := doc.transactions[id];
    UncommittedUnpublished(canon, doc, id);
    assert ValidTransaction(id, transaction, doc.signals);
    AddSignalKeeps(canon, doc.signals,
      CommitOccupancy(doc, id, updatedAt).signals[transaction.publication.signalId]);
  }

  lemma {:induction false} CommitKeepsLogs(canon: Canon, doc: Document, id: TransactionId, updatedAt: int)
    requires Inv(canon, doc) && id in doc.transactions && doc.transactions[id].state == Prepared
    ensures LogsValid(CommitOccupancy(doc, id, updatedAt))
  {
    UncommittedUnpublished(canon, doc, id);
    CommitLogs(doc, id, updatedAt);
  }

  lemma CommitLogs(doc: Document, id: TransactionId, updatedAt: int)
    requires LogsValid(doc) && id in doc.transactions && doc.transactions[id].state == Prepared
    requires doc.transactions[id].publication.signalId !in doc.signals
    ensures LogsValid(CommitOccupancy(doc, id, updatedAt))
  {
    var next := CommitOccupancy(doc, id, updatedAt);
    assert ValidTransaction(id, doc.transactions[id], doc.signals);
    forall t | t in next.transactions ensures ValidTransaction(t, next.transactions[t], next.signals) {
      assert ValidTransaction(t, doc.transactions[t], doc.signals);
    }
  }

  lemma CommitKeepsOwners(canon: Canon, doc: Document, id: TransactionId, updatedAt: int)
    requires Inv(canon, doc) && id in doc.transactions && doc.transactions[id].state == Prepared
    ensures SignalsOwned(CommitOccupancy(doc, id, updatedAt))
    ensures TransactionsDistinct(CommitOccupancy(doc, id, updatedAt))
    ensures TransactionsNormalizable(canon, CommitOccupancy(doc, id, updatedAt))
  {
    var next := CommitOccupancy(doc, id, updatedAt);
    var own := doc.transactions[id].publication.signalId;
    assert Owns(next, id, own);
    forall s | s in next.signals && s != own ensures exists t :: Owns(next, t, s) {
      var t :| Owns(doc, t, s);
      assert Owns(next, t, s);
    }
  }

  lemma CommitKeeps(canon: Canon, doc: Document, id: TransactionId, updatedAt: int)
    requires Inv(canon, doc) && id in doc.transactions && doc.transactions[id].state == Prepared
    ensures Inv(canon, CommitOccupancy(doc, id, updatedAt))
  {
    CommitKeepsSignals(canon, doc, id, updatedAt);
    CommitKeepsLogs(canon, doc, id, updatedAt);
    CommitKeepsOwners(canon, doc, id, updatedAt);
  }

  /** `transition` takes the signal of `record` to the state `record` has. */
  ghost predicate Moves(canon: Canon, doc: Document, record: Signal, transition: Transition) {
    && transition.signalId in doc.signals
    && record.publication == doc.signals[transition.signalId].publication
    && ValidSignal(canon, transition.signalId, record)
    && IsIdentifier(transition.transitionId)
    && (transition.terminalReason.Some? ==> IsIdentifier(transition.terminalReason.value))
  }

  lemma MoveKeepsLogs(canon: Canon, doc: Document, record: Signal, transition: Transition)
    requires LogsValid(doc) && Moves(canon, doc, record, transition)
    ensures LogsValid(Moved(doc, record, transition))
  {
    var next := Moved(doc, record, transition);
    forall t | t in next.transactions ensures ValidTransaction(t, next.transactions[t], next.signals) {
      assert ValidTransaction(t, doc.transactions[t], doc.signals);
    }
  }

  lemma MoveKeepsOwners(canon: Canon, doc: Document, record: Signal, transition: Transition)
    requires SignalsOwned(doc) && Moves(canon, doc, record, transition)
    ensures SignalsOwned(Moved(doc, record, transition))
  {
    var next := Moved(doc, record, transition);
    forall s | s in next.signals ensures exists t :: Owns(next, t, s) {
      var t :| Owns(doc, t, s);
      assert Owns(next, t, s);
    }
  }

  lemma {:induction false} MoveKeepsSignals(canon: Canon, doc: Document, record: Signal, transition: Transition)
    requires SignalsValid(canon, doc.signals) && Moves(canon, doc, record, transition)
    requires ActivePairsDistinct(canon, doc.signals[transition.signalId := record])
    requires WithinCapacity(doc.signals[transition.signalId := record])
    ensures SignalsValid(canon, Moved(doc, record, transition).signals)
  {
  }

  /** A move keeps the invariant when it keeps pairs distinct and capacity respected. */
  lemma {:induction false} MoveKeeps(canon: Canon, doc: Document, record: Signal, transition: Transition)
    requires Inv(canon, doc) && Moves(canon, doc, record, transition)
    requires ActivePairsDistinct(canon, doc.signals[transition.signalId := record])
    requires WithinCapacity(doc.signals[transition.signalId := record])
    ensures Inv(canon, Moved(doc, record, transition))
  {
    MoveKeepsLogs(canon, doc, record, transition);
    MoveKeepsOwners(canon, doc, record, transition);
    MoveKeepsSignals(canon, doc, record, transition);
  }

  // ---------------------------------------------------------------- cases
  //
  // When a call changes the document, and to what; in every other case the document stays.

  ghost predicate Stays(doc: Document, outcome: Outcome) {
    match outcome
    case Ok(next) => next == doc
    case Err(error) => error != LedgerCorrupt && error != TotalCapacityFull
  }

  ghost predicate NewReservation(canon: Canon, doc: Document, call: Call)
    requires call.Reserve?
  {
    && CandidateError(canon, call).None?
    && call.transactionId !in doc.transactions && call.expectedRevision == doc.revision
    && !PendingConflict(doc.transactions, call.publication.signalId, call.publication.deliveryId)
    && call.publication.signalId !in doc.signals
    && !DeliveryTaken(doc.signals, call.publication.deliveryId)
    && !TransactionTaken(doc.transactions, call.publication.signalId, call.publication.deliveryId)
  }

  ghost predicate ResumedReservation(canon: Canon, doc: Document, call: Call)
    requires call.Reserve?
  {
    && CandidateError(canon, call).None? && call.durable
    && call.transactionId in doc.transactions
    && doc.transactions[call.transactionId].state == Prepared
    && doc.transactions[call.transactionId].publication == call.publication
    && doc.transactions[call.transactionId].reservationTransitionId == call.transitionId
  }

  function WithCandidate(doc: Document, call: Call): Document
    requires call.Reserve?
  {
    doc.(transactions := doc.transactions[call.transactionId := Candidate(call)])
  }

  lemma ReserveCases(canon: Canon, doc: Document, call: Call)
    requires call.Reserve?
    ensures NewReservation(canon, doc, call) ==>
              ReservePublishedSignal(canon, doc, call) == Persisted(canon,
                if call.durable then CommitOccupancy(WithCandidate(doc, call), call.transactionId, call.updatedAt)
                else WithCandidate(doc, call), call.updatedAt)
    ensures ResumedReservation(canon, doc, call) ==>
              ReservePublishedSignal(canon, doc, call)
              == Persisted(canon, CommitOccupancy(doc, call.transactionId, call.updatedAt), call.updatedAt)
    ensures !NewReservation(canon, doc, call) && !ResumedReservation(canon, doc, call) ==>
              Stays(doc, ReservePublishedSignal(canon, doc, call))
  {
  }

  /** The guards of an entry that is not a replay. */
  ghost predicate EntryAdmitted(canon: Canon, doc: Document, call: Call)
    requires call.Entry?
  {
    && call.signalId in doc.signals && IsIdentifier(call.transitionId)
    && call.transitionId !in doc.transitions && call.expectedRevision == doc.revision
    && doc.signals[call.signalId].state == PublishedPendingEntry
    && |ActiveOf(doc.signals, doc.signals[call.signalId].publication.mode)| < STYLE_CAPACITY
    && !PairHeldByAnother(canon, doc.signals, call.signalId, canon(doc.signals[call.signalId].publication.symbol))
  }

  function EntryMove(doc: Document, call: Call): Document
    requires call.Entry? && call.signalId in doc.signals
  {
    Moved(doc, Entered(doc.signals[call.signalId], call), EntryTransition(doc, call))
  }

  /** Within capacity the style's cap refuses before the total cap can. */
  lemma EntryCases(canon: Canon, doc: Document, call: Call)
    requires call.Entry? && WithinCapacity(doc.signals)
    ensures EntryAdmitted(canon, doc, call) ==>
              MarkEntryActive(canon, doc, call) == Persisted(canon, EntryMove(doc, call), call.updatedAt)
    ensures !EntryAdmitted(canon, doc, call) ==> Stays(doc, MarkEntryActive(canon, doc, call))
  {
    assert forall mode :: |ActiveOf(doc.signals, mode)| <= STYLE_CAPACITY;
  }

  /** The guards of an ending that is not a replay. */
  ghost predicate EndingAdmitted(doc: Document, call: Call)
    requires call.Terminal?
  {
    && call.terminalState.IsTerminal() && IsIdentifier(call.reason) && IsIdentifier(call.transitionId)
    && call.transitionId !in doc.transitions && call.expectedRevision == doc.revision
    && call.signalId in doc.signals && !doc.signals[call.signalId].state.IsTerminal()
    && !(doc.signals[call.signalId].state == EntryActive && call.terminalState == Expired)
  }

  function EndingMove(doc: Document, call: Call): Document
    requires call.Terminal? && call.signalId in doc.signals
  {
    var record := doc.signals[call.signalId];
    Moved(doc, Ended(record, call), TerminalTransition(doc, call, record.state))
  }

  lemma TerminalCases(canon: Canon, doc: Document, call: Call)
    requires call.Terminal?
    ensures EndingAdmitted(doc, call) ==>
              TransitionTerminal(canon, doc, call) == Persisted(canon, EndingMove(doc, call), call.updatedAt)
    ensures !EndingAdmitted(doc, call) ==> Stays(doc, TransitionTerminal(canon, doc, call))
  {
  }

  // ---------------------------------------------------------------- calls

  /** The call ends in a document that satisfies the invariant, one revision on when it
      changed; and neither the validation before writing nor the total cap ever refuses. */
  ghost predicate Keeps(canon: Canon, doc: Document, outcome: Outcome) {
    match outcome
    case Ok(next) => Inv(canon, next) && (next == doc || next.revision == doc.revision + 1)
    case Err(error) => error != LedgerCorrupt && error != TotalCapacityFull
  }

  lemma {:induction false} ReserveKeeps(canon: Canon, doc: Document, call: Call)
    requires Inv(canon, doc) && call.Reserve?
    ensures Keeps(canon, doc, ReservePublishedSignal(canon, doc, call))
  {
    ReserveCases(canon, doc, call);
    if NewReservation(canon, doc, call) {
      AddKeeps(canon, doc, call);
      var added := WithCandidate(doc, call);
      if call.durable {
        CommitKeeps(canon, added, call.transactionId, call.updatedAt);
        BumpKeeps(canon, CommitOccupancy(added, call.transactionId, call.updatedAt), call.updatedAt);
      } else {
        BumpKeeps(canon, added, call.updatedAt);
      }
    } else if ResumedReservation(canon, doc, call) {
      CommitKeeps(canon, doc, call.transactionId, call.updatedAt);
      BumpKeeps(canon, CommitOccupancy(doc, call.transactionId, call.updatedAt), call.updatedAt);
    }
  }

  lemma EntryFits(canon: Canon, signals: map<Id, Signal>, id: Id, record: Signal)
    requires ActivePairsDistinct(canon, signals) && WithinCapacity(signals)
    requires id in signals && signals[id].state == PublishedPendingEntry
    requires record.state == EntryActive && record.publication == signals[id].publication
    requires |ActiveOf(signals, record.publication.mode)| < STYLE_CAPACITY
    requires !PairHeldByAnother(canon, signals, id, canon(record.publication.symbol))
    ensures WithinCapacity(signals[id := record])
    ensures ActivePairsDistinct(canon, signals[id := record])
  {
    EntryFitsCapacity(signals, id, record);
    EntryFitsPairs(canon, signals, id, record);
  }

  lemma EntryFitsCapacity(signals: map<Id, Signal>, id: Id, record: Signal)
    requires WithinCapacity(signals) && id in signals && signals[id].state == PublishedPendingEntry
    requires record.state == EntryActive && record.publication == signals[id].publication
    requires |ActiveOf(signals, record.publication.mode)| < STYLE_CAPACITY
    ensures WithinCapacity(signals[id := record])
  {
    var next := signals[id := record];
    var mine := record.publication.mode;
    assert ActiveOf(next, mine) == ActiveOf(signals, mine) + {id};
    forall mode | mode != mine ensures ActiveOf(next, mode) == ActiveOf(signals, mode) { }
    assert forall mode :: |ActiveOf(next, mode)| <= STYLE_CAPACITY;
  }

  lemma EntryFitsPairs(canon: Canon, signals: map<Id, Signal>, id: Id, record: Signal)
    requires ActivePairsDistinct(canon, signals) && id in signals
    requires !PairHeldByAnother(canon, signals, id, canon(record.publication.symbol))
    ensures ActivePairsDistinct(canon, signals[id := record])
  {
    var next := signals[id := record];
    forall a, b | (a in next && b in next && a != b && next[a].state == EntryActive && next[b].state == EntryActive)
      ensures canon(next[a].publication.symbol) != canon(next[b].publication.symbol)
    {
      if a == id { assert next[b] == signals[b]; } else if b == id { assert next[a] == signals[a]; }
    }
  }

  lemma {:induction false} EnteredKeeps(canon: Canon, doc: Document, call: Call)
    requires Inv(canon, doc) && call.Entry? && EntryAdmitted(canon, doc, call)
    ensures Inv(canon, EntryMove(doc, call))
  {
    var record := doc.signals[call.signalId];
    assert ValidSignal(canon, call.signalId, record);
    EntryFits(canon, doc.signals, call.signalId, Entered(record, call));
    MoveKeeps(canon, doc, Entered(record, call), EntryTransition(doc, call));
  }

  lemma {:induction false} EntryKeeps(canon: Canon, doc: Document, call: Call)
    requires Inv(canon, doc) && call.Entry?
    ensures Keeps(canon, doc, MarkEntryActive(canon, doc, call))
  {
    EntryCases(canon, doc, call);
    if EntryAdmitted(canon, doc, call) {
      EnteredKeeps(canon, doc, call);
      BumpKeeps(canon, EntryMove(doc, call), call.updatedAt);
    }
  }

  lemma EndingFits(canon: Canon, signals: map<Id, Signal>, id: Id, record: Signal)
    requires ActivePairsDistinct(canon, signals) && WithinCapacity(signals)
    requires id in signals && record.state.IsTerminal()
    ensures WithinCapacity(signals[id := record])
    ensures ActivePairsDistinct(canon, signals[id := record])
  {
    var next := signals[id := record];
    forall mode ensures |ActiveOf(next, mode)| <= |ActiveOf(signals, mode)| {
      SubsetSmaller(ActiveOf(next, mode), ActiveOf(signals, mode));
    }
  }

  lemma SubsetSmaller<T>(a: set<T>, b: set<T>)
    requires a <= b
    ensures |a| <= |b|
  {
    assert b == a + (b - a);
  }

  lemma {:induction false} EndedKeeps(canon: Canon, doc: Document, call: Call)
    requires Inv(canon, doc) && call.Terminal? && EndingAdmitted(doc, call)
    ensures Inv(canon, EndingMove(doc, call))
  {
    var record := doc.signals[call.signalId];
    assert ValidSignal(canon, call.signalId, record);
    EndingFits(canon, doc.signals, call.signalId, Ended(record, call));
    MoveKeeps(canon, doc, Ended(record, call), TerminalTransition(doc, call, record.state));
  }

  lemma {:induction false} TerminalKeeps(canon: Canon, doc: Document, call: Call)
    requires Inv(canon, doc) && call.Terminal?
    ensures Keeps(canon, doc, TransitionTerminal(canon, doc, call))
  {
    TerminalCases(canon, doc, call);
    if EndingAdmitted(doc, call) {
      EndedKeeps(canon, doc, call);
      BumpKeeps(canon, EndingMove(doc, call), call.updatedAt);
    }
  }

  lemma {:induction false} AbortKeeps(canon: Canon, doc: Document, id: TransactionId, aborted: Transaction)
    requires Inv(canon, doc) && id in doc.transactions && doc.transactions[id].state == Prepared
    requires aborted.state == Aborted && aborted.publication == doc.transactions[id].publication
    requires ValidTransaction(id, aborted, doc.signals)
    ensures Inv(canon, doc.(transactions := doc.transactions[id := aborted]))
  {
    RecordKeeps(canon, doc, id, aborted);
  }

  lemma {:induction false} ReconcileKeeps(canon: Canon, doc: Document, call: Call)
    requires Inv(canon, doc) && call.Reconcile?
    ensures Keeps(canon, doc, ReconcilePublicationState(canon, doc, call))
  {
    if call.transactionId in doc.transactions && doc.transactions[call.transactionId].state == Prepared {
      var transaction := doc.transactions[call.transactionId];
      assert ValidTransaction(call.transactionId, transaction, doc.signals);
      CommitKeeps(canon, doc, call.transactionId, call.updatedAt);
      BumpKeeps(canon, CommitOccupancy(doc, call.transactionId, call.updatedAt), call.updatedAt);
      if IsIdentifier(call.abortReason) {
        var aborted := transaction.(state := Aborted, updatedAt := call.updatedAt,
                                    abortedAt := Some(call.updatedAt), abortReason := Some(call.abortReason));
        AbortKeeps(canon, doc, call.transactionId, aborted);
        BumpKeeps(canon, doc.(transactions := doc.transactions[call.transactionId := aborted]), call.updatedAt);
      }
    }
  }

  lemma {:induction false} CallKeeps(canon: Canon, doc: Document, call: Call)
    requires Inv(canon, doc)
    ensures Keeps(canon, doc, Apply(canon, doc, call))
  {
    match call
    case Reserve(_, _, _, _, _, _) => ReserveKeeps(canon, doc, call);
    case Entry(_, _, _, _, _, _) => EntryKeeps(canon, doc, call);
    case Terminal(_, _, _, _, _, _, _, _) => TerminalKeeps(canon, doc, call);
    case Reconcile(_, _, _, _, _, _, _, _) => ReconcileKeeps(canon, doc, call);
  }

  /** Every run keeps the invariant, from the empty ledger or from any ledger that has it. */
  lemma {:induction false} RunKeeps(canon: Canon, doc: Document, calls: seq<Call>)
    requires Inv(canon, doc)
    ensures Inv(canon, Run(canon, doc, calls))
  {
    if calls != [] {
      RunKeeps(canon, doc, calls[..|calls| - 1]);
      CallKeeps(canon, Run(canon, doc, calls[..|calls| - 1]), calls[|calls| - 1]);
    }
  }

  // ---------------------------------------------------------------- main results

  lemma {:induction false} ReachableInv(canon: Canon, createdAt: int, calls: seq<Call>)
    ensures Inv(canon, Run(canon, EmptyLedger(createdAt), calls))
  {
    EmptyInv(canon, createdAt);
    RunKeeps(canon, EmptyLedger(createdAt), calls);
  }

  /** In every reachable ledger no style holds more than three slots, no more than nine are
      held in all, no two active signals share a pair, and deliveries are unique. */
  lemma {:induction false} CapacityRespected(canon: Canon, createdAt: int, calls: seq<Call>)
    ensures var signals := Run(canon, EmptyLedger(createdAt), calls).signals;
            && (forall mode :: |ActiveOf(signals, mode)| <= STYLE_CAPACITY)
            && TotalActive(signals) <= TOTAL_CAPACITY
            && ActivePairsDistinct(canon, signals)
            && DeliveriesDistinct(signals)
  {
    ReachableInv(canon, createdAt, calls);
  }

  /** The guards alone suffice: on a reachable ledger no call is ever refused by the
      validation that precedes writing, nor by the total cap. */
  lemma {:induction false} ValidationNeverRefuses(canon: Canon, createdAt: int, calls: seq<Call>, call: Call)
    ensures var outcome := Apply(canon, Run(canon, EmptyLedger(createdAt), calls), call);
            outcome.Err? ==> outcome.error != LedgerCorrupt && outcome.error != TotalCapacityFull
  {
    ReachableInv(canon, createdAt, calls);
    CallKeeps(canon, Run(canon, EmptyLedger(createdAt), calls), call);
  }

  /** Signals are in bijection with committed transactions, transactions never share a
      signal or a delivery, and at most one is prepared. */
  lemma {:induction false} SignalsAreCommittedTransactions(canon: Canon, createdAt: int, calls: seq<Call>)
    ensures var doc := Run(canon, EmptyLedger(createdAt), calls);
            && TransactionsDistinct(doc)
            && (forall s :: s in doc.signals ==> exists t :: Owns(doc, t, s))
            && (forall s, t, u :: Owns(doc, t, s) && Owns(doc, u, s) ==> t == u)
            && (forall t :: t in doc.transactions && doc.transactions[t].state == OccupancyCommitted ==>
                  Owns(doc, t, doc.transactions[t].publication.signalId))
  {
    var doc := Run(canon, EmptyLedger(createdAt), calls);
    ReachableInv(canon, createdAt, calls);
    forall t | t in doc.transactions && doc.transactions[t].state == OccupancyCommitted
      ensures Owns(doc, t, doc.transactions[t].publication.signalId)
    {
      assert ValidTransaction(t, doc.transactions[t], doc.signals);
    }
  }

  /** A transaction keeps its identity through a call, and everything once it is settled. */
  ghost predicate Carries(doc: Document, next: Document, t: TransactionId)
    requires t in doc.transactions
  {
    && t in next.transactions
    && next.transactions[t].publication == doc.transactions[t].publication
    && next.transactions[t].reservationTransitionId == doc.transactions[t].reservationTransitionId
    && (doc.transactions[t].state != Prepared ==> next.transactions[t] == doc.transactions[t])
  }

  lemma CallCarries(canon: Canon, doc: Document, call: Call, t: TransactionId)
    requires t in doc.transactions
    ensures Carries(doc, Next(canon, doc, call), t)
  {
  }

  /** Committed and aborted transactions never change, whatever is called afterwards. */
  lemma {:induction false} SettledForever(canon: Canon, doc: Document, calls: seq<Call>, t: TransactionId)
    requires t in doc.transactions
    ensures Carries(doc, Run(canon, doc, calls), t)
  {
    if calls != [] {
      SettledForever(canon, doc, calls[..|calls| - 1], t);
      CallCarries(canon, Run(canon, doc, calls[..|calls| - 1]), calls[|calls| - 1], t);
    }
  }

  /** The signal of an aborted transaction never appears in any later ledger. */
  lemma {:induction false} AbortedNeverAppears(canon: Canon, createdAt: int, calls: seq<Call>, more: seq<Call>,
                                               t: TransactionId)
    requires var doc := Run(canon, EmptyLedger(createdAt), calls);
             t in doc.transactions && doc.transactions[t].state == Aborted
    ensures var doc := Run(canon, EmptyLedger(createdAt), calls);
            doc.transactions[t].publication.signalId !in Run(canon, doc, more).signals
  {
    var doc := Run(canon, EmptyLedger(createdAt), calls);
    ReachableInv(canon, createdAt, calls);
    RunKeeps(canon, doc, more);
    SettledForever(canon, doc, more, t);
    UncommittedUnpublished(canon, Run(canon, doc, more), t);
  }
}
