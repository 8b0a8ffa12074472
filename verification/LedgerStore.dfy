/** The ledger file and its lock file, with the calls that update them in place.

    Every call works on its own copy of the document, and replaces the file only when it
    has bumped and validated that copy.  The loops are those of the validators and guards. */
module LedgerStore {
  import opened Wrappers
  import opened ActiveSignalLedger

  /** The signals among `keys` that occupy a slot of the style. */
  ghost function ActiveAmong(signals: map<Id, Signal>, keys: set<Id>, mode: Style): set<Id> {
    set s | s in keys && s in signals && signals[s].state == EntryActive && signals[s].publication.mode == mode
  }

  /** Counts the occupied slots of each style. */
  method Capacity(signals: map<Id, Signal>) returns (counts: map<Style, nat>)
    ensures forall mode :: mode in counts && counts[mode] == |ActiveOf(signals, mode)|
  {
    counts := map[Swing := 0, Intraday := 0, Scalp := 0];
    var todo := signals.Keys;
    ghost var done := {};
    forall mode ensures mode in counts && counts[mode] == |ActiveAmong(signals, done, mode)| {
      assert ActiveAmong(signals, done, mode) == {};
      match mode case Swing => case Intraday => case Scalp =>
    }
    while todo != {}
      invariant todo <= signals.Keys && done == signals.Keys - todo
      invariant forall mode :: mode in counts && counts[mode] == |ActiveAmong(signals, done, mode)|
      decreases todo
    {
      var s :| s in todo;
      ghost var before := done;
      todo, done := todo - {s}, done + {s};
      var mode := signals[s].publication.mode;
      if signals[s].state == EntryActive {
        counts := counts[mode := counts[mode] + 1];
        assert ActiveAmong(signals, done, mode) == ActiveAmong(signals, before, mode) + {s};
      }
      assert forall other :: (other != mode || signals[s].state != EntryActive) ==>
        ActiveAmong(signals, done, other) == ActiveAmong(signals, before, other);
    }
    assert forall mode :: ActiveOf(signals, mode) == ActiveAmong(signals, done, mode);
  }

  /** Fills the sets of delivery ids and of active pairs, and stops at the first repetition. */
  method ValidateSignals(canon: Canon, signals: map<Id, Signal>) returns (ok: bool)
    ensures ok <==>
      (&& (forall s :: s in signals ==> ValidSignal(canon, s, signals[s]))
       && DeliveriesDistinct(signals)
       && ActivePairsDistinct(canon, signals))
  {
    var todo := signals.Keys;
    ghost var done := {};
    var deliveries: set<Id> := {};
    var pairs: set<Option<string>> := {};
    while todo != {}
      invariant todo <= signals.Keys && done == signals.Keys - todo
      invariant forall s :: s in done ==> ValidSignal(canon, s, signals[s])
      invariant deliveries == set s | s in done :: signals[s].publication.deliveryId
      invariant pairs == set s | s in done && signals[s].state == EntryActive :: canon(signals[s].publication.symbol)
      invariant forall a, b :: (a in done && b in done && a != b) ==>
                  signals[a].publication.deliveryId != signals[b].publication.deliveryId
      invariant forall a, b :: (a in done && b in done && a != b
                    && signals[a].state == EntryActive && signals[b].state == EntryActive) ==>
                  canon(signals[a].publication.symbol) != canon(signals[b].publication.symbol)
      decreases todo
    {
      var s :| s in todo;
      var record := signals[s];
      if !ValidSignal(canon, s, record) { return false; }
      if record.publication.deliveryId in deliveries {
        ghost var other :| other in done && signals[other].publication.deliveryId == record.publication.deliveryId;
        assert s in signals && other in signals && s != other;
        return false;
      }
      var pair := canon(record.publication.symbol);
      if record.state == EntryActive && pair in pairs {
        ghost var other :| other in done && signals[other].state == EntryActive
                        && canon(signals[other].publication.symbol) == pair;
        assert s in signals && other in signals && s != other;
        return false;
      }
      deliveries := deliveries + {record.publication.deliveryId};
      if record.state == EntryActive { pairs := pairs + {pair}; }
      todo, done := todo - {s}, done + {s};
    }
    assert done == signals.Keys;
    return true;
  }

  method ValidateLogs(doc: Document) returns (ok: bool)
    ensures ok <==> LogsValid(doc)
  {
    var transitions := doc.transitions.Keys;
    while transitions != {}
      invariant transitions <= doc.transitions.Keys
      invariant forall t :: t in doc.transitions && t !in transitions ==>
                  ValidTransition(t, doc.transitions[t], doc.signals)
      decreases transitions
    {
      var t :| t in transitions;
      if !ValidTransition(t, doc.transitions[t], doc.signals) { return false; }
      transitions := transitions - {t};
    }
    var transactions := doc.transactions.Keys;
    while transactions != {}
      invariant transactions <= doc.transactions.Keys
      invariant forall t :: t in doc.transactions && t !in transactions ==>
                  ValidTransaction(t, doc.transactions[t], doc.signals)
      decreases transactions
    {
      var t :| t in transactions;
      if !ValidTransaction(t, doc.transactions[t], doc.signals) { return false; }
      transactions := transactions - {t};
    }
    return true;
  }

  method ValidateLedger(canon: Canon, doc: Document) returns (ok: bool)
    ensures ok <==> Valid(canon, doc)
  {
    ok := ValidateSignals(canon, doc.signals);
    if !ok { return false; }
    ok := ValidateLogs(doc);
    if !ok { return false; }
    var counts := Capacity(doc.signals);
    return counts[Swing] + counts[Intraday] + counts[Scalp] <= TOTAL_CAPACITY
        && counts[Swing] <= STYLE_CAPACITY && counts[Intraday] <= STYLE_CAPACITY && counts[Scalp] <= STYLE_CAPACITY;
  }

  /** What a call refuses before it takes the lock. */
  function ArgumentError(canon: Canon, call: Call): Option<Error> {
    match call
    case Reserve(_, _, _, _, _, _) => CandidateError(canon, call)
    case Entry(_, _, _, _, _, _) => None
    case Terminal(_, _, _, state, _, reason, _, _) =>
      if !state.IsTerminal() then Some(LifecycleTransitionInvalid)
      else if !IsIdentifier(reason) then Some(TerminalReasonInvalid) else None
    case Reconcile(_, id, _, _, _, _, _, _) =>
      if IsTransactionId(id) then None else Some(TransactionIdInvalid)
  }

  /** A call against the file as it is found. */
  function Called(canon: Canon, file: Option<Document>, lockPresent: bool, call: Call): Outcome {
    if ArgumentError(canon, call).Some? then Err(ArgumentError(canon, call).value)
    else if lockPresent then Err(LockAcquisitionFailed)
    else if file.None? then Err(LedgerNotFound)
    else if !Valid(canon, file.value) then Err(LedgerCorrupt)
    else Apply(canon, file.value, call)
  }

  class LedgerStore {
    const canon: Canon
    var file: Option<Document>
    var lockPresent: bool

    constructor (canon: Canon)
      ensures this.canon == canon && file == None && !lockPresent
    {
      this.canon := canon;
      file, lockPresent := None, false;
    }

    /** Creates the lock file, or gives up; a lock left by a crash is never removed. */
    method Lock() returns (held: bool)
      modifies this`lockPresent
      ensures held == !old(lockPresent) && lockPresent
    {
      held := !lockPresent;
      lockPresent := true;
    }

    method Unlock()
      modifies this`lockPresent
      ensures !lockPresent
    {
      lockPresent := false;
    }

    method Read() returns (outcome: Outcome)
      ensures outcome == if file.None? then Err(LedgerNotFound)
                         else if Valid(canon, file.value) then Ok(file.value) else Err(LedgerCorrupt)
    {
      if file.None? { return Err(LedgerNotFound); }
      var ok := ValidateLedger(canon, file.value);
      return if ok then Ok(file.value) else Err(LedgerCorrupt);
    }

    /** Bumps the working copy, validates it and replaces the file with it. */
    method Persist(working: Document, updatedAt: int) returns (outcome: Outcome)
      modifies this`file
      ensures outcome == Persisted(canon, working, updatedAt)
      ensures file == if outcome.Ok? then Some(outcome.value) else old(file)
    {
      var ledger := working.(revision := working.revision + 1, updatedAt := updatedAt);
      var ok := ValidateLedger(canon, ledger);
      if !ok { return Err(LedgerCorrupt); }
      file := Some(ledger);
      return Ok(ledger);
    }

    method Initialize(createdAt: int) returns (outcome: Outcome)
      modifies this
      ensures outcome == if old(lockPresent) then Err(LockAcquisitionFailed)
                         else if old(file).Some? then Err(SignalAlreadyExists) else Ok(EmptyLedger(createdAt))
      ensures file == if outcome.Ok? then Some(outcome.value) else old(file)
      ensures lockPresent == old(lockPresent)
    {
      var held := Lock();
      if !held { return Err(LockAcquisitionFailed); }
      if file.Some? {
        outcome := Err(SignalAlreadyExists);
      } else {
        file := Some(EmptyLedger(createdAt));
        outcome := Ok(file.value);
      }
      Unlock();
    }

    /** The loop over transactions that looks for another one still prepared. */
    static method FindPending(transactions: map<TransactionId, Transaction>, signalId: Id, deliveryId: Id)
      returns (found: bool)
      ensures found == PendingConflict(transactions, signalId, deliveryId)
    {
      var todo := transactions.Keys;
      while todo != {}
        invariant todo <= transactions.Keys
        invariant forall t :: t in transactions && t !in todo && transactions[t].state == Prepared ==>
                    transactions[t].publication.signalId == signalId && transactions[t].publication.deliveryId == deliveryId
        decreases todo
      {
        var t :| t in todo;
        var transaction := transactions[t];
        if transaction.state == Prepared
           && (transaction.publication.signalId != signalId || transaction.publication.deliveryId != deliveryId) {
          return true;
        }
        todo := todo - {t};
      }
      return false;
    }

    method Reserve(call: Call) returns (outcome: Outcome)
      requires call.Reserve?
      modifies this
      ensures outcome == Called(canon, old(file), old(lockPresent), call)
      ensures file == if outcome.Ok? then Some(outcome.value) else old(file)
      ensures lockPresent == old(lockPresent)
    {
      var bad := CandidateError(canon, call);
      if bad.Some? { return Err(bad.value); }
      var held := Lock();
      if !held { return Err(LockAcquisitionFailed); }
      outcome := Read();
      if outcome.Ok? { outcome := ReserveLocked(outcome.value, call); }
      Unlock();
    }

    method ReserveLocked(read: Document, call: Call) returns (outcome: Outcome)
      requires call.Reserve? && CandidateError(canon, call).None? && file == Some(read)
      modifies this`file
      ensures outcome == ReservePublishedSignal(canon, read, call)
      ensures file == if outcome.Ok? then Some(outcome.value) else old(file)
    {
      var ledger := read;
      var signalId, deliveryId := call.publication.signalId, call.publication.deliveryId;
      if call.transactionId in ledger.transactions {
        var existing := ledger.transactions[call.transactionId];
        if existing.publication != call.publication || existing.reservationTransitionId != call.transitionId {
          return Err(TransitionIdCollision);
        }
        if existing.state == Prepared && call.durable {
          ledger := Commit(ledger, call.transactionId, call.updatedAt);
          outcome := Persist(ledger, call.updatedAt);
          return;
        }
        return Ok(ledger);
      }
      if call.expectedRevision != ledger.revision { return Err(ExpectedRevisionMismatch); }
      var pending := FindPending(ledger.transactions, signalId, deliveryId);
      if pending { return Err(ReconciliationRequired); }
      if signalId in ledger.signals {
        return Err(ExistingSignalError(ledger.signals[signalId].publication, call.publication));
      }
      if exists s :: s in ledger.signals && ledger.signals[s].publication.deliveryId == deliveryId {
        return Err(PublicationIdCollision);
      }
      if exists t :: t in ledger.transactions && (ledger.transactions[t].publication.signalId == signalId
                                               || ledger.transactions[t].publication.deliveryId == deliveryId) {
        return Err(SignalIdCollision);
      }
      ledger := ledger.(transactions := ledger.transactions[call.transactionId := Candidate(call)]);
      if call.durable { ledger := Commit(ledger, call.transactionId, call.updatedAt); }
      outcome := Persist(ledger, call.updatedAt);
    }

    /** Adds the pending record and the reservation transition, then settles the transaction. */
    static method Commit(read: Document, id: TransactionId, updatedAt: int) returns (ledger: Document)
      requires id in read.transactions
      ensures ledger == CommitOccupancy(read, id, updatedAt)
    {
      ledger := read;
      var transaction := ledger.transactions[id];
      var publication := transaction.publication;
      var record := Signal(publication, PublishedPendingEntry, None, None, None,
                           transaction.reservationTransitionId, updatedAt, updatedAt);
      ledger := ledger.(signals := ledger.signals[publication.signalId := record]);
      ledger := ledger.(transitions := ledger.transitions[transaction.reservationTransitionId :=
        Transition(transaction.reservationTransitionId, OpReserve, publication.signalId, None, PublishedPendingEntry,
                   updatedAt, None, ledger.revision + 1)]);
      transaction := transaction.(state := OccupancyCommitted);
      transaction := transaction.(updatedAt := updatedAt);
      ledger := ledger.(transactions := ledger.transactions[id := transaction]);
    }

    method EntryActive(call: Call) returns (outcome: Outcome)
      requires call.Entry?
      modifies this
      ensures outcome == Called(canon, old(file), old(lockPresent), call)
      ensures file == if outcome.Ok? then Some(outcome.value) else old(file)
      ensures lockPresent == old(lockPresent)
    {
      var held := Lock();
      if !held { return Err(LockAcquisitionFailed); }
      outcome := Read();
      if outcome.Ok? { outcome := EntryLocked(outcome.value, call); }
      Unlock();
    }

    method EntryLocked(read: Document, call: Call) returns (outcome: Outcome)
      requires call.Entry? && file == Some(read)
      modifies this`file
      ensures outcome == MarkEntryActive(canon, read, call)
      ensures file == if outcome.Ok? then Some(outcome.value) else old(file)
    {
      var ledger := read;
      if call.signalId !in ledger.signals { return Err(SignalIdInvalid); }
      var record := ledger.signals[call.signalId];
      if !IsIdentifier(call.transitionId) { return Err(TransitionIdCollision); }
      var candidate := EntryTransition(ledger, call);
      if call.transitionId in ledger.transitions {
        if !SameTransition(ledger.transitions[call.transitionId], candidate) {
          return Err(if call.expectedRevision == ledger.revision then TransitionIdCollision else ExpectedRevisionMismatch);
        }
        if call.requireCurrent && call.expectedRevision != ledger.revision { return Err(ExpectedRevisionMismatch); }
        return Ok(ledger);
      }
      if call.expectedRevision != ledger.revision { return Err(ExpectedRevisionMismatch); }
      if record.state.IsTerminal() { return Err(TerminalSignalReopenForbidden); }
      if record.state != PublishedPendingEntry { return Err(LifecycleTransitionInvalid); }
      var counts := Capacity(ledger.signals);
      if counts[record.publication.mode] >= STYLE_CAPACITY { return Err(StyleCapacityFull); }
      if counts[Swing] + counts[Intraday] + counts[Scalp] >= TOTAL_CAPACITY { return Err(TotalCapacityFull); }
      var pair := canon(record.publication.symbol);
      if exists s :: s in ledger.signals && ledger.signals[s].state == ActiveSignalLedger.EntryActive
                  && s != call.signalId && canon(ledger.signals[s].publication.symbol) == pair {
        return Err(GlobalPairAlreadyActive);
      }
      record := record.(state := ActiveSignalLedger.EntryActive, entryAt := Some(call.entryAt));
      record := record.(lastTransitionId := call.transitionId, updatedAt := call.updatedAt);
      ledger := ledger.(signals := ledger.signals[call.signalId := record]);
      ledger := ledger.(transitions := ledger.transitions[call.transitionId := candidate]);
      outcome := Persist(ledger, call.updatedAt);
    }

    method Terminate(call: Call) returns (outcome: Outcome)
      requires call.Terminal?
      modifies this
      ensures outcome == Called(canon, old(file), old(lockPresent), call)
      ensures file == if outcome.Ok? then Some(outcome.value) else old(file)
      ensures lockPresent == old(lockPresent)
    {
      if !call.terminalState.IsTerminal() { return Err(LifecycleTransitionInvalid); }
      if !IsIdentifier(call.reason) { return Err(TerminalReasonInvalid); }
      var held := Lock();
      if !held { return Err(LockAcquisitionFailed); }
      outcome := Read();
      if outcome.Ok? { outcome := TerminateLocked(outcome.value, call); }
      Unlock();
    }

    method TerminateLocked(read: Document, call: Call) returns (outcome: Outcome)
      requires call.Terminal? && call.terminalState.IsTerminal() && IsIdentifier(call.reason) && file == Some(read)
      modifies this`file
      ensures outcome == TransitionTerminal(canon, read, call)
      ensures file == if outcome.Ok? then Some(outcome.value) else old(file)
    {
      var ledger := read;
      if call.transitionId in ledger.transitions {
        if ReplaysTerminal(ledger.transitions[call.transitionId], call) {
          if call.requireCurrent && call.expectedRevision != ledger.revision { return Err(ExpectedRevisionMismatch); }
          return Ok(ledger);
        }
        if call.expectedRevision != ledger.revision { return Err(ExpectedRevisionMismatch); }
        return Err(TransitionIdCollision);
      }
      if call.expectedRevision != ledger.revision { return Err(ExpectedRevisionMismatch); }
      if call.signalId !in ledger.signals { return Err(SignalIdInvalid); }
      var record := ledger.signals[call.signalId];
      if record.state.IsTerminal() {
        return if AlreadyEnded(record, call) then Ok(ledger) else Err(TerminalSignalReopenForbidden);
      }
      var allowed := record.state == PublishedPendingEntry
                  || (record.state == ActiveSignalLedger.EntryActive && call.terminalState != Expired);
      if !allowed { return Err(LifecycleTransitionInvalid); }
      if !IsIdentifier(call.transitionId) { return Err(TransitionIdCollision); }
      var candidate := TerminalTransition(ledger, call, record.state);
      record := record.(state := call.terminalState, terminalAt := Some(call.terminalAt));
      record := record.(terminalReason := Some(call.reason));
      record := record.(lastTransitionId := call.transitionId, updatedAt := call.updatedAt);
      ledger := ledger.(signals := ledger.signals[call.signalId := record]);
      ledger := ledger.(transitions := ledger.transitions[call.transitionId := candidate]);
      outcome := Persist(ledger, call.updatedAt);
    }

    method Reconcile(call: Call) returns (outcome: Outcome)
      requires call.Reconcile?
      modifies this
      ensures outcome == Called(canon, old(file), old(lockPresent), call)
      ensures file == if outcome.Ok? then Some(outcome.value) else old(file)
      ensures lockPresent == old(lockPresent)
    {
      if !IsTransactionId(call.transactionId) { return Err(TransactionIdInvalid); }
      var held := Lock();
      if !held { return Err(LockAcquisitionFailed); }
      outcome := Read();
      if outcome.Ok? { outcome := ReconcileLocked(outcome.value, call); }
      Unlock();
    }

    method ReconcileLocked(read: Document, call: Call) returns (outcome: Outcome)
      requires call.Reconcile? && IsTransactionId(call.transactionId) && file == Some(read)
      modifies this`file
      ensures outcome == ReconcilePublicationState(canon, read, call)
      ensures file == if outcome.Ok? then Some(outcome.value) else old(file)
    {
      var ledger := read;
      if call.expectedRevision != ledger.revision { return Err(ExpectedRevisionMismatch); }
      if call.transactionId !in ledger.transactions { return Err(ReconciliationRequired); }
      var transaction := ledger.transactions[call.transactionId];
      if transaction.state == OccupancyCommitted || transaction.state == Aborted { return Ok(ledger); }
      if call.artifactExists {
        if call.artifactSignalId != Some(transaction.publication.signalId)
           || call.artifactDeliveryId != Some(transaction.publication.deliveryId)
           || call.artifactHash != Some(transaction.publication.payloadHash) { return Err(ReconciliationRequired); }
        ledger := Commit(ledger, call.transactionId, call.updatedAt);
      } else if call.artifactSignalId.Some? || call.artifactDeliveryId.Some? || call.artifactHash.Some? {
        return Err(ReconciliationRequired);
      } else {
        if !IsIdentifier(call.abortReason) { return Err(TerminalReasonInvalid); }
        transaction := transaction.(state := Aborted, updatedAt := call.updatedAt);
        transaction := transaction.(abortedAt := Some(call.updatedAt), abortReason := Some(call.abortReason));
        ledger := ledger.(transactions := ledger.transactions[call.transactionId := transaction]);
      }
      outcome := Persist(ledger, call.updatedAt);
    }
  }
}
