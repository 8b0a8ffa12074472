/** Replays and inspection: repeating an accepted call never changes a facade ledger, a call
    touches only its own signal, and the read-only inspector predicts the writer. */
module FacadeProperties {
  import opened Wrappers
  import opened ActiveSignalLedger
  import opened LedgerInvariants
  import opened Registration
  import opened FacadeRuns

  function OwnSignal(call: FacadeCall): Id {
    match call
    case Publish(request) => request.publication.signalId
    case Lifecycle(call) => call.signalId
  }

  /** Every signal but `own` is as it was, publications are never altered, endings are final,
      and transitions and transactions stay. */
  ghost predicate TouchesOnly(doc: Document, next: Document, own: Id) {
    && (forall s :: s in doc.signals ==>
          && s in next.signals
          && next.signals[s].publication == doc.signals[s].publication
          && (s != own || doc.signals[s].state.IsTerminal() ==> next.signals[s] == doc.signals[s]))
    && (forall s :: s in next.signals && s != own ==> s in doc.signals)
    && (forall t :: t in doc.transitions ==> t in next.transitions && next.transitions[t] == doc.transitions[t])
    && (forall t :: t in doc.transactions ==> t in next.transactions && next.transactions[t] == doc.transactions[t])
  }

  lemma MoveTouches(doc: Document, record: Signal, t: Transition, updatedAt: int)
    requires t.signalId in doc.signals && !doc.signals[t.signalId].state.IsTerminal()
    requires record.publication == doc.signals[t.signalId].publication && t.transitionId !in doc.transitions
    ensures TouchesOnly(doc, Bumped(Moved(doc, record, t), updatedAt), t.signalId)
  {
  }

  lemma ReservationTouches(doc: Document, request: Request)
    requires request.publication.signalId !in doc.signals && request.transitionId !in doc.transitions
    requires Derived(request.publication) !in doc.transactions
    ensures TouchesOnly(doc, Bumped(ReservedLedger(doc, request), request.timestamp), request.publication.signalId)
  {
  }

  lemma PersistedNext(canon: Canon, doc: Document, call: Call, move: Document)
    requires Apply(canon, doc, call) == Persisted(canon, move, call.updatedAt)
    ensures Next(canon, doc, call) == doc || Next(canon, doc, call) == Bumped(move, call.updatedAt)
  {
  }

  lemma EntryTouches(canon: Canon, doc: Document, call: Call)
    requires call.Entry? && WithinCapacity(doc.signals)
    ensures TouchesOnly(doc, Next(canon, doc, call), call.signalId)
  {
    EntryCases(canon, doc, call);
    if EntryAdmitted(canon, doc, call) {
      PersistedNext(canon, doc, call, EntryMove(doc, call));
      MoveTouches(doc, Entered(doc.signals[call.signalId], call), EntryTransition(doc, call), call.updatedAt);
    }
  }

  lemma TerminalTouches(canon: Canon, doc: Document, call: Call)
    requires call.Terminal?
    ensures TouchesOnly(doc, Next(canon, doc, call), call.signalId)
  {
    TerminalCases(canon, doc, call);
    if EndingAdmitted(doc, call) {
      PersistedNext(canon, doc, call, EndingMove(doc, call));
      MoveTouches(doc, Ended(doc.signals[call.signalId], call), EndingTransition(doc, call), call.updatedAt);
    }
  }

  lemma PublishTouches(canon: Canon, doc: Document, request: Request)
    requires !ResumedReservation(canon, doc, ReservationOf(request))
    requires NewReservation(canon, doc, ReservationOf(request)) ==> request.transitionId !in doc.transitions
    ensures TouchesOnly(doc, Next(canon, doc, ReservationOf(request)), request.publication.signalId)
  {
    var call := ReservationOf(request);
    ReserveCases(canon, doc, call);
    if NewReservation(canon, doc, call) {
      PersistedNext(canon, doc, call, ReservedLedger(doc, request));
      ReservationTouches(doc, request);
    }
  }

  /** A facade call alters no record but that of its own signal. */
  lemma {:induction false} CallTouchesOnlyItsSignal(canon: Canon, doc: Document, log: seq<Transition>, call: FacadeCall)
    requires FacadeInv(canon, doc, log)
    ensures TouchesOnly(doc, FacadeNext(canon, doc, call), OwnSignal(call))
  {
    match call
    case Publish(request) => RegisterTouches(canon, doc, request);
    case Lifecycle(inner) =>
      if inner.Entry? { EntryTouches(canon, doc, inner); } else { TerminalTouches(canon, doc, inner); }
  }

  lemma {:induction false} RegisterTouches(canon: Canon, doc: Document, request: Request)
    requires AllRegistered(doc)
    ensures TouchesOnly(doc, Register(canon, doc, request).1, request.publication.signalId)
  {
    if EvidenceValid(request) && Prechecked(doc, request).None? {
      PrecheckedReservation(canon, doc, request);
      PublishTouches(canon, doc, request);
    }
  }

  // ---------------------------------------------------------------- replays

  ghost predicate AcceptedAt(canon: Canon, doc: Document, call: FacadeCall) {
    match call
    case Publish(request) => Register(canon, doc, request).0 in {Registered, Replayed, AlreadyPresent}
    case Lifecycle(inner) => Apply(canon, doc, inner).Ok?
  }

  /** The trace that an accepted call leaves in the ledger, or finds there. */
  ghost predicate Remembers(doc: Document, call: FacadeCall) {
    match call
    case Publish(request) => Derived(request.publication) in doc.transactions
    case Lifecycle(inner) =>
      || inner.transitionId in doc.transitions
      || (inner.Terminal? && inner.terminalState.IsTerminal()
          && inner.signalId in doc.signals && AlreadyEnded(doc.signals[inner.signalId], inner))
  }

  lemma AcceptedIsRemembered(canon: Canon, doc: Document, call: FacadeCall)
    requires WithinCapacity(doc.signals) && AcceptedAt(canon, doc, call)
    ensures Remembers(FacadeNext(canon, doc, call), call)
  {
    match call
    case Publish(request) =>
    case Lifecycle(inner) =>
      if inner.Entry? {
        EntryCases(canon, doc, inner);
        if EntryAdmitted(canon, doc, inner) { PersistedNext(canon, doc, inner, EntryMove(doc, inner)); }
      } else {
        TerminalCases(canon, doc, inner);
        if EndingAdmitted(doc, inner) { PersistedNext(canon, doc, inner, EndingMove(doc, inner)); }
      }
  }

  lemma RememberedChangesNothing(canon: Canon, doc: Document, call: FacadeCall)
    requires AllRegistered(doc) && WithinCapacity(doc.signals) && Remembers(doc, call)
    ensures FacadeNext(canon, doc, call) == doc
  {
    match call
    case Publish(request) =>
      assert RegisteredBy(doc, Derived(request.publication));
      ReserveCases(canon, doc, ReservationOf(request));
    case Lifecycle(inner) =>
      if inner.Entry? { EntryCases(canon, doc, inner); } else { TerminalCases(canon, doc, inner); }
  }

  lemma {:induction false} RemembersThroughRuns(canon: Canon, doc: Document, log: seq<Transition>,
                                                more: seq<FacadeCall>, call: FacadeCall)
    requires FacadeInv(canon, doc, log) && Remembers(doc, call)
    ensures Remembers(FacadeRun(canon, doc, more), call)
  {
    if more != [] {
      var shorter := more[..|more| - 1];
      RemembersThroughRuns(canon, doc, log, shorter, call);
      var middle := RunLogs(canon, doc, log, shorter);
      CallTouchesOnlyItsSignal(canon, FacadeRun(canon, doc, shorter), middle, more[|more| - 1]);
    }
  }

  /** Repeating an accepted call, however much later and after whatever other calls, leaves
      the ledger exactly as it is. */
  lemma {:induction false} AcceptedCallsReplay(canon: Canon, createdAt: int, calls: seq<FacadeCall>, call: FacadeCall,
                                               more: seq<FacadeCall>)
    requires AcceptedAt(canon, FacadeRun(canon, EmptyLedger(createdAt), calls), call)
    ensures var after := FacadeNext(canon, FacadeRun(canon, EmptyLedger(createdAt), calls), call);
            var later := FacadeRun(canon, after, more);
            FacadeNext(canon, later, call) == later
  {
    var doc := FacadeRun(canon, EmptyLedger(createdAt), calls);
    var log := LogAccountsForRun(canon, createdAt, calls);
    AcceptedIsRemembered(canon, doc, call);
    var longer := CallLogs(canon, doc, log, call);
    var after := FacadeNext(canon, doc, call);
    RemembersThroughRuns(canon, after, longer, more, call);
    var longest := RunLogs(canon, after, longer, more);
    RememberedChangesNothing(canon, FacadeRun(canon, after, more), call);
  }

  // ---------------------------------------------------------------- inspection

  /** What registration answers, and does, for each answer of the inspector at the current revision. */
  ghost predicate Predicted(canon: Canon, doc: Document, request: Request) {
    var (verdict, next) := Register(canon, doc, request);
    var known := Derived(request.publication) in doc.transactions;
    match Inspected(canon, doc, request)
    case AlreadyPresent => verdict == (if request.repair then AlreadyPresent else Replayed) && next == doc
    case SignalIdentityConflict => verdict == SignalIdentityConflict && next == doc
    case ReservationIdentityConflict => verdict == ReservationIdentityConflict && next == doc
    case InvalidPublicationEvidence => verdict == InvalidPublicationEvidence && next == doc
    case NoRegistration =>
      if known then verdict == FailClosed && next == doc
      else if canon(request.publication.symbol).None? then verdict == RegistrationPending && next == doc
      else verdict == Registered && next.revision == doc.revision + 1
    case _ => false
  }

  lemma ConflictPredicted(canon: Canon, doc: Document, request: Request)
    requires Valid(canon, doc) && AllRegistered(doc) && request.expectedRevision == doc.revision
    requires EvidenceValid(request)
    requires KnownConflict(doc, request.publication, request.transitionId).Some?
    ensures Predicted(canon, doc, request)
  {
    if Derived(request.publication) in doc.transactions { assert RegisteredBy(doc, Derived(request.publication)); }
  }

  lemma {:induction false} KnownPredicted(canon: Canon, doc: Document, request: Request)
    requires Valid(canon, doc) && AllRegistered(doc) && TransactionsNormalizable(canon, doc)
    requires request.expectedRevision == doc.revision && EvidenceValid(request)
    requires KnownConflict(doc, request.publication, request.transitionId).None?
    requires Derived(request.publication) in doc.transactions
    ensures Predicted(canon, doc, request)
  {
    assert RegisteredBy(doc, Derived(request.publication));
    assert ValidTransaction(Derived(request.publication), doc.transactions[Derived(request.publication)], doc.signals);
    assert ReservePublishedSignal(canon, doc, ReservationOf(request)) == Ok(doc);
  }

  /** A new reservation is persisted as it was asked for, and so recognised when it comes back. */
  lemma {:induction false} NewRegisters(canon: Canon, doc: Document, request: Request)
    requires Inv(canon, doc) && EvidenceValid(request) && Prechecked(doc, request).None?
    requires NewReservation(canon, doc, ReservationOf(request))
    ensures Register(canon, doc, request) == (Registered, Bumped(ReservedLedger(doc, request), request.timestamp))
  {
    NewIsPersisted(canon, doc, ReservationOf(request), ReservedLedger(doc, request));
    NewMatches(canon, doc, request);
  }

  lemma NewIsPersisted(canon: Canon, doc: Document, call: Call, moved: Document)
    requires Inv(canon, doc) && call.Reserve? && call.durable && NewReservation(canon, doc, call)
    requires moved == CommitOccupancy(WithCandidate(doc, call), call.transactionId, call.updatedAt)
    ensures Valid(canon, Bumped(moved, call.updatedAt))
    ensures ReservePublishedSignal(canon, doc, call) == Ok(Bumped(moved, call.updatedAt))
  {
    AddKeeps(canon, doc, call);
    CommitKeeps(canon, WithCandidate(doc, call), call.transactionId, call.updatedAt);
    BumpKeeps(canon, moved, call.updatedAt);
    ReserveCases(canon, doc, call);
  }

  lemma NewMatches(canon: Canon, doc: Document, request: Request)
    requires Valid(canon, Bumped(ReservedLedger(doc, request), request.timestamp))
    ensures MatchesPersisted(canon, Bumped(ReservedLedger(doc, request), request.timestamp), request.publication,
                             request.transitionId)
  {
  }

  lemma {:induction false} NewPredicted(canon: Canon, doc: Document, request: Request)
    requires Inv(canon, doc) && AllRegistered(doc) && request.expectedRevision == doc.revision && EvidenceValid(request)
    requires KnownConflict(doc, request.publication, request.transitionId).None?
    requires Derived(request.publication) !in doc.transactions
    ensures Predicted(canon, doc, request)
  {
    SignalFree(canon, doc, request.publication);
    TransactionsFree(doc, request.publication);
    assert Inspected(canon, doc, request) == NoRegistration;
    if canon(request.publication.symbol).Some? { NewRegisters(canon, doc, request); }
  }

  /** Without a signal conflict and without its transaction, nothing of a publication is taken. */
  lemma SignalFree(canon: Canon, doc: Document, publication: Publication)
    requires SignalsOwned(doc) && AllRegistered(doc) && !SignalConflict(doc, publication)
    requires Derived(publication) !in doc.transactions
    ensures publication.signalId !in doc.signals && !DeliveryTaken(doc.signals, publication.deliveryId)
  {
    SignalsAreRegistered(doc);
  }

  lemma SignalsAreRegistered(doc: Document)
    requires SignalsOwned(doc) && AllRegistered(doc)
    ensures forall s :: s in doc.signals ==> Derived(doc.signals[s].publication) in doc.transactions
  {
    forall s | s in doc.signals ensures Derived(doc.signals[s].publication) in doc.transactions {
      var t :| Owns(doc, t, s);
      assert RegisteredBy(doc, t);
    }
  }

  lemma TransactionsFree(doc: Document, publication: Publication)
    requires LogsValid(doc) && AllRegistered(doc) && Derived(publication) !in doc.transactions
    requires publication.signalId !in doc.signals && !DeliveryTaken(doc.signals, publication.deliveryId)
    ensures !TransactionTaken(doc.transactions, publication.signalId, publication.deliveryId)
    ensures !PendingConflict(doc.transactions, publication.signalId, publication.deliveryId)
  {
    forall t | t in doc.transactions
      ensures doc.transactions[t].publication.signalId != publication.signalId
      ensures doc.transactions[t].publication.deliveryId != publication.deliveryId
      ensures doc.transactions[t].state != Prepared
    {
      assert RegisteredBy(doc, t);
      assert ValidTransaction(t, doc.transactions[t], doc.signals);
    }
  }

  /** On every facade ledger, at its current revision, the inspector's answer determines the
      writer's: present exactly when it replays, the same conflict when it conflicts, and no
      registration without a transaction exactly when it registers, one revision on. */
  lemma {:induction false} InspectorPredictsWriter(canon: Canon, createdAt: int, calls: seq<FacadeCall>,
                                                   request: Request)
    requires request.expectedRevision == FacadeRun(canon, EmptyLedger(createdAt), calls).revision
    ensures Predicted(canon, FacadeRun(canon, EmptyLedger(createdAt), calls), request)
  {
    var doc := FacadeRun(canon, EmptyLedger(createdAt), calls);
    var log := LogAccountsForRun(canon, createdAt, calls);
    if EvidenceValid(request) {
      if KnownConflict(doc, request.publication, request.transitionId).Some? {
        ConflictPredicted(canon, doc, request);
      } else if Derived(request.publication) in doc.transactions {
        KnownPredicted(canon, doc, request);
      } else {
        NewPredicted(canon, doc, request);
      }
    }
  }
}
