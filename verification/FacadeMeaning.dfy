/** What repeats and inspections answer, in the fields of the ledger: the repeat of an accepted
    call is accepted, and the inspector says what is there. */
module FacadeMeaning {
  import opened Wrappers
  import opened ActiveSignalLedger
  import opened LedgerInvariants
  import opened LedgerMeaning
  import opened Registration
  import opened FacadeRuns
  import opened FacadeProperties

  // ---------------------------------------------------------------- repeated entries and endings

  /** The transition that a call would record is on record. */
  ghost predicate OnRecord(doc: Document, call: Call) {
    (call.Entry? && EntryOnRecord(doc, call)) || (call.Terminal? && EndingOnRecord(doc, call))
  }

  lemma OnRecordIsAccepted(canon: Canon, doc: Document, call: Call)
    requires OnRecord(doc, call)
    ensures Apply(canon, doc, call)
         == if call.requireCurrent && call.expectedRevision != doc.revision then Err(ExpectedRevisionMismatch)
            else Ok(doc)
  {
    if call.Entry? { RecordedEntry(canon, doc, call); } else { RecordedEnding(canon, doc, call); }
  }

  lemma RecordedEntry(canon: Canon, doc: Document, call: Call)
    requires call.Entry? && EntryOnRecord(doc, call)
    ensures MarkEntryActive(canon, doc, call)
         == if call.requireCurrent && call.expectedRevision != doc.revision then Err(ExpectedRevisionMismatch)
            else Ok(doc)
  {
  }

  lemma RecordedEnding(canon: Canon, doc: Document, call: Call)
    requires call.Terminal? && EndingOnRecord(doc, call)
    ensures TransitionTerminal(canon, doc, call)
         == if call.requireCurrent && call.expectedRevision != doc.revision then Err(ExpectedRevisionMismatch)
            else Ok(doc)
  {
  }

  lemma AcceptedIsOnRecord(canon: Canon, doc: Document, call: Call)
    requires Inv(canon, doc) && (call.Entry? || call.Terminal?) && Apply(canon, doc, call).Ok?
    requires call.transitionId in Apply(canon, doc, call).value.transitions
    ensures OnRecord(Next(canon, doc, call), call)
  {
    if call.Entry? { EntryMeans(canon, doc, call); } else { TerminalMeans(canon, doc, call); }
  }

  lemma RecordStays(doc: Document, next: Document, call: Call)
    requires OnRecord(doc, call) && TransitionsKept(doc, next)
    requires call.Entry? ==> call.signalId in next.signals
    ensures OnRecord(next, call)
  {
  }

  /** Once an entry or an ending has been accepted and its transition is on record, repeating the
      call is accepted at any later point of a facade run, after any other calls, and changes
      nothing; asked for at the current revision, it is accepted exactly there. */
  lemma {:induction false} RepeatsAreAccepted(canon: Canon, createdAt: int, calls: seq<FacadeCall>, call: LifecycleCall,
                                              more: seq<FacadeCall>)
    requires var outcome := Apply(canon, FacadeRun(canon, EmptyLedger(createdAt), calls), call);
             outcome.Ok? && call.transitionId in outcome.value.transitions
    ensures var after := Next(canon, FacadeRun(canon, EmptyLedger(createdAt), calls), call);
            var later := FacadeRun(canon, after, more);
            Apply(canon, later, call)
            == if call.requireCurrent && call.expectedRevision != later.revision then Err(ExpectedRevisionMismatch)
               else Ok(later)
  {
    var doc := FacadeRun(canon, EmptyLedger(createdAt), calls);
    var log := LogAccountsForRun(canon, createdAt, calls);
    AcceptedStaysOnRecord(canon, doc, log, call, more);
    OnRecordIsAccepted(canon, FacadeRun(canon, Next(canon, doc, call), more), call);
  }

  lemma {:induction false} AcceptedStaysOnRecord(canon: Canon, doc: Document, log: seq<Transition>, call: LifecycleCall,
                                                 more: seq<FacadeCall>)
    requires FacadeInv(canon, doc, log) && Apply(canon, doc, call).Ok?
    requires call.transitionId in Apply(canon, doc, call).value.transitions
    ensures OnRecord(FacadeRun(canon, Next(canon, doc, call), more), call)
  {
    AcceptedIsOnRecord(canon, doc, call);
    var longer := CallLogs(canon, doc, log, Lifecycle(call));
    StaysOnRecord(canon, Next(canon, doc, call), longer, call, more);
  }

  lemma {:induction false} StaysOnRecord(canon: Canon, doc: Document, log: seq<Transition>, call: LifecycleCall,
                                         more: seq<FacadeCall>)
    requires FacadeInv(canon, doc, log) && OnRecord(doc, call)
    ensures OnRecord(FacadeRun(canon, doc, more), call)
  {
    var longest := RunLogs(canon, doc, log, more);
    var later := FacadeRun(canon, doc, more);
    if call.Entry? { RecordedSignal(later, call.transitionId); }
    RecordStays(doc, later, call);
  }

  lemma RecordedSignal(doc: Document, id: Id)
    requires LogsValid(doc) && id in doc.transitions
    ensures doc.transitions[id].signalId in doc.signals
  {
    assert ValidTransition(id, doc.transitions[id], doc.signals);
  }

  // ---------------------------------------------------------------- repeated reservations

  /** In a facade run a registered publication keeps its signal, its transaction and its
      reservation's transition. */
  ghost predicate Present(doc: Document, publication: Publication, transitionId: Id) {
    && publication.signalId in doc.signals && doc.signals[publication.signalId].publication == publication
    && Derived(publication) in doc.transactions && doc.transactions[Derived(publication)].publication == publication
    && doc.transactions[Derived(publication)].reservationTransitionId == transitionId
  }

  lemma PresentAnswers(canon: Canon, doc: Document, request: Request)
    requires Inv(canon, doc) && AllRegistered(doc) && EvidenceValid(request)
    requires Present(doc, request.publication, request.transitionId) && request.expectedRevision == doc.revision
    ensures Register(canon, doc, request)
         == (if doc.signals[request.publication.signalId].state != PublishedPendingEntry then FailClosed
             else if request.repair then AlreadyPresent else Replayed,
             doc)
  {
    KnownPredicted(canon, doc, request);
    PresentMatches(canon, doc, request);
    assert ReservePublishedSignal(canon, doc, ReservationOf(request)) == Ok(doc) by { KnownReplays(canon, doc, request); }
  }

  lemma KnownReplays(canon: Canon, doc: Document, request: Request)
    requires Inv(canon, doc) && AllRegistered(doc) && EvidenceValid(request)
    requires Present(doc, request.publication, request.transitionId)
    ensures ReservePublishedSignal(canon, doc, ReservationOf(request)) == Ok(doc)
  {
    assert RegisteredBy(doc, Derived(request.publication));
    assert ValidTransaction(Derived(request.publication), doc.transactions[Derived(request.publication)], doc.signals);
  }

  lemma PresentMatches(canon: Canon, doc: Document, request: Request)
    requires Valid(canon, doc) && AllRegistered(doc) && Present(doc, request.publication, request.transitionId)
    ensures MatchesPersisted(canon, doc, request.publication, request.transitionId)
       <==> doc.signals[request.publication.signalId].state == PublishedPendingEntry
  {
    assert RegisteredBy(doc, Derived(request.publication));
  }

  /** Registering again, at the then current revision, is recognised as a replay as long as the
      signal is pending, and fails closed once the signal has moved on; it never changes anything. */
  lemma {:induction false} RepeatedRegistration(canon: Canon, createdAt: int, calls: seq<FacadeCall>, request: Request,
                                                more: seq<FacadeCall>)
    requires Register(canon, FacadeRun(canon, EmptyLedger(createdAt), calls), request).0 == Registered
    ensures var after := Register(canon, FacadeRun(canon, EmptyLedger(createdAt), calls), request).1;
            var later := FacadeRun(canon, after, more);
            && request.publication.signalId in later.signals
            && Register(canon, later, request.(expectedRevision := later.revision))
               == (if later.signals[request.publication.signalId].state != PublishedPendingEntry then FailClosed
                   else if request.repair then AlreadyPresent else Replayed,
                   later)
  {
    var doc := FacadeRun(canon, EmptyLedger(createdAt), calls);
    var log := LogAccountsForRun(canon, createdAt, calls);
    RegisteredIsPresent(canon, doc, request);
    var longer := CallLogs(canon, doc, log, Publish(request));
    PresentStays(canon, FacadeNext(canon, doc, Publish(request)), longer, more, request.publication, request.transitionId);
    var longest := RunLogs(canon, FacadeNext(canon, doc, Publish(request)), longer, more);
    var later := FacadeRun(canon, FacadeNext(canon, doc, Publish(request)), more);
    PresentAnswers(canon, later, request.(expectedRevision := later.revision));
  }

  lemma RegisteredIsPresent(canon: Canon, doc: Document, request: Request)
    requires Register(canon, doc, request).0 == Registered
    ensures EvidenceValid(request) && Present(Register(canon, doc, request).1, request.publication, request.transitionId)
  {
  }

  lemma {:induction false} PresentStays(canon: Canon, doc: Document, log: seq<Transition>, more: seq<FacadeCall>,
                                        publication: Publication, transitionId: Id)
    requires FacadeInv(canon, doc, log) && Present(doc, publication, transitionId)
    ensures Present(FacadeRun(canon, doc, more), publication, transitionId)
  {
    if more != [] {
      var shorter, last := more[..|more| - 1], more[|more| - 1];
      PresentStays(canon, doc, log, shorter, publication, transitionId);
      var middle := RunLogs(canon, doc, log, shorter);
      CallTouchesOnlyItsSignal(canon, FacadeRun(canon, doc, shorter), middle, last);
      TouchedIsPresent(FacadeRun(canon, doc, shorter), FacadeRun(canon, doc, more), OwnSignal(last), publication,
                       transitionId);
    }
  }

  lemma TouchedIsPresent(doc: Document, next: Document, own: Id, publication: Publication, transitionId: Id)
    requires TouchesOnly(doc, next, own) && Present(doc, publication, transitionId)
    ensures Present(next, publication, transitionId)
  {
  }

  // ---------------------------------------------------------------- the inspector and the writer

  /** What a facade ledger shows of a publication, read off its signals and transitions. */
  ghost function Shown(doc: Document, request: Request): Verdict {
    var publication := request.publication;
    if publication.signalId == Blank || publication.deliveryId == Blank || publication.symbol == Blank
       || request.transitionId == Blank then InvalidPublicationEvidence
    else if publication.signalId in doc.signals then
      if doc.signals[publication.signalId].publication != publication then SignalIdentityConflict
      else if !ReservedUnder(doc, publication.signalId, request.transitionId) then ReservationIdentityConflict
      else if doc.signals[publication.signalId].state == PublishedPendingEntry then AlreadyPresent
      else NoRegistration
    else if exists s :: s in doc.signals && doc.signals[s].publication.deliveryId == publication.deliveryId then
      SignalIdentityConflict
    else if request.transitionId in doc.transitions then ReservationIdentityConflict
    else NoRegistration
  }

  /** The signal was reserved by the transition. */
  ghost predicate ReservedUnder(doc: Document, signalId: Id, transitionId: Id) {
    exists t :: t in doc.transactions && doc.transactions[t].publication.signalId == signalId
             && doc.transactions[t].reservationTransitionId == transitionId
  }

  /** What registration answers, and the ledger it leaves. */
  ghost function Answered(canon: Canon, doc: Document, request: Request): (Verdict, Document) {
    var shown := Shown(doc, request);
    if shown == InvalidPublicationEvidence then (InvalidPublicationEvidence, doc)
    else if request.expectedRevision != doc.revision then (ActiveRevisionConflict, doc)
    else if shown == AlreadyPresent then (if request.repair then AlreadyPresent else Replayed, doc)
    else if shown != NoRegistration then (shown, doc)
    else if request.publication.signalId in doc.signals then (FailClosed, doc)
    else if canon(request.publication.symbol) == None then (RegistrationPending, doc)
    else (Registered, Occupied(doc, Reservation(request), request.timestamp))
  }

  function Reservation(request: Request): (call: Call)
    ensures call.Reserve?
  {
    Reserve(request.expectedRevision, Derived(request.publication), request.transitionId, request.publication,
            request.timestamp, true)
  }

  lemma SignalHasTransaction(doc: Document, publication: Publication)
    requires SignalsOwned(doc) && AllRegistered(doc) && publication.signalId in doc.signals
    requires doc.signals[publication.signalId].publication == publication
    ensures Derived(publication) in doc.transactions && doc.transactions[Derived(publication)].publication == publication
  {
    var t :| Owns(doc, t, publication.signalId);
    assert RegisteredBy(doc, t);
  }

  lemma TransactionHasSignal(doc: Document, publication: Publication)
    requires LogsValid(doc) && AllRegistered(doc) && Derived(publication) in doc.transactions
    ensures publication.signalId in doc.signals && doc.signals[publication.signalId].publication == publication
    ensures doc.transactions[Derived(publication)].publication == publication
  {
    assert RegisteredBy(doc, Derived(publication));
    assert ValidTransaction(Derived(publication), doc.transactions[Derived(publication)], doc.signals);
  }

  lemma ReservedUnderIs(doc: Document, publication: Publication, transitionId: Id)
    requires SignalsOwned(doc) && AllRegistered(doc) && publication.signalId in doc.signals && LogsValid(doc)
    requires doc.signals[publication.signalId].publication == publication
    ensures Derived(publication) in doc.transactions
    ensures ReservedUnder(doc, publication.signalId, transitionId)
       <==> doc.transactions[Derived(publication)].reservationTransitionId == transitionId
  {
    SignalHasTransaction(doc, publication);
    forall t | t in doc.transactions && doc.transactions[t].publication.signalId == publication.signalId
      ensures t == Derived(publication)
    {
      assert RegisteredBy(doc, t);
      assert ValidTransaction(t, doc.transactions[t], doc.signals);
    }
  }

  lemma InspectionIsShown(canon: Canon, doc: Document, request: Request)
    requires Valid(canon, doc) && SignalsOwned(doc) && AllRegistered(doc)
    ensures Inspected(canon, doc, request) == Shown(doc, request)
  {
    if EvidenceValid(request) {
      if SignalConflict(doc, request.publication) {
        ConflictIsShown(canon, doc, request);
      } else if Derived(request.publication) in doc.transactions {
        KnownIsShown(canon, doc, request);
      } else {
        UnknownIsShown(canon, doc, request);
      }
    }
  }

  lemma ConflictIsShown(canon: Canon, doc: Document, request: Request)
    requires EvidenceValid(request) && SignalConflict(doc, request.publication)
    ensures Relation(canon, doc, request.publication, request.transitionId) == Shown(doc, request)
  {
  }

  lemma UnknownIsShown(canon: Canon, doc: Document, request: Request)
    requires SignalsOwned(doc) && LogsValid(doc) && AllRegistered(doc) && EvidenceValid(request)
    requires Derived(request.publication) !in doc.transactions && !SignalConflict(doc, request.publication)
    ensures Relation(canon, doc, request.publication, request.transitionId) == Shown(doc, request)
  {
    SignalFree(canon, doc, request.publication);
    TransactionsFree(doc, request.publication);
  }

  lemma KnownIsShown(canon: Canon, doc: Document, request: Request)
    requires Valid(canon, doc) && SignalsOwned(doc) && AllRegistered(doc) && EvidenceValid(request)
    requires Derived(request.publication) in doc.transactions && !SignalConflict(doc, request.publication)
    ensures Relation(canon, doc, request.publication, request.transitionId) == Shown(doc, request)
  {
    TransactionHasSignal(doc, request.publication);
    ReservedUnderIs(doc, request.publication, request.transitionId);
    if doc.transactions[Derived(request.publication)].reservationTransitionId == request.transitionId {
      PresentMatches(canon, doc, request);
    }
    RelationOfKnown(canon, doc, request);
  }

  lemma RelationOfKnown(canon: Canon, doc: Document, request: Request)
    requires EvidenceValid(request) && !SignalConflict(doc, request.publication)
    requires var publication := request.publication;
             && publication.signalId in doc.signals && doc.signals[publication.signalId].publication == publication
             && Derived(publication) in doc.transactions
             && doc.transactions[Derived(publication)].publication == publication
             && (ReservedUnder(doc, publication.signalId, request.transitionId)
                 <==> doc.transactions[Derived(publication)].reservationTransitionId == request.transitionId)
             && (doc.transactions[Derived(publication)].reservationTransitionId == request.transitionId ==>
                   (MatchesPersisted(canon, doc, publication, request.transitionId)
                    <==> doc.signals[publication.signalId].state == PublishedPendingEntry))
    ensures Relation(canon, doc, request.publication, request.transitionId) == Shown(doc, request)
  {
  }

  lemma RegistrationAnswers(canon: Canon, doc: Document, request: Request)
    requires Inv(canon, doc) && AllRegistered(doc) && Inspected(canon, doc, request) == Shown(doc, request)
    requires request.expectedRevision == doc.revision ==> Predicted(canon, doc, request)
    ensures Register(canon, doc, request) == Answered(canon, doc, request)
  {
    if EvidenceValid(request) && request.expectedRevision == doc.revision && Shown(doc, request) == NoRegistration {
      UnregisteredAnswers(canon, doc, request);
    } else {
      OtherwiseAnswers(canon, doc, request);
    }
  }

  lemma OtherwiseAnswers(canon: Canon, doc: Document, request: Request)
    requires Inspected(canon, doc, request) == Shown(doc, request)
    requires request.expectedRevision == doc.revision ==> Predicted(canon, doc, request)
    requires request.expectedRevision == doc.revision ==> !EvidenceValid(request) || Shown(doc, request) != NoRegistration
    ensures Register(canon, doc, request) == Answered(canon, doc, request)
  {
  }

  lemma UnregisteredAnswers(canon: Canon, doc: Document, request: Request)
    requires Inv(canon, doc) && AllRegistered(doc) && Predicted(canon, doc, request) && EvidenceValid(request)
    requires request.expectedRevision == doc.revision
    requires Inspected(canon, doc, request) == Shown(doc, request) == NoRegistration
    ensures Register(canon, doc, request) == Answered(canon, doc, request)
  {
    if Derived(request.publication) in doc.transactions {
      TransactionHasSignal(doc, request.publication);
    } else {
      SignalFree(canon, doc, request.publication);
      if canon(request.publication.symbol).Some? {
        NewRegistersOccupied(canon, doc, request);
      }
    }
  }

  lemma NewRegistersOccupied(canon: Canon, doc: Document, request: Request)
    requires Inv(canon, doc) && AllRegistered(doc) && EvidenceValid(request)
    requires Inspected(canon, doc, request) == NoRegistration && canon(request.publication.symbol).Some?
    requires Derived(request.publication) !in doc.transactions && request.expectedRevision == doc.revision
    requires request.publication.signalId !in doc.signals && !DeliveryTaken(doc.signals, request.publication.deliveryId)
    ensures Register(canon, doc, request) == (Registered, Occupied(doc, Reservation(request), request.timestamp))
  {
    TransactionsFree(doc, request.publication);
    NewRegisters(canon, doc, request);
    OccupiedIs(doc, Reservation(request));
  }

  /** On every facade ledger the inspector answers exactly what the ledger's signals and transitions
      show, and registration answers, and leaves, exactly what follows from that. */
  lemma {:induction false} InspectionAndRegistrationMean(canon: Canon, createdAt: int, calls: seq<FacadeCall>,
                                                         request: Request)
    ensures var doc := FacadeRun(canon, EmptyLedger(createdAt), calls);
            && Inspected(canon, doc, request) == Shown(doc, request)
            && Register(canon, doc, request) == Answered(canon, doc, request)
  {
    var doc := FacadeRun(canon, EmptyLedger(createdAt), calls);
    var log := LogAccountsForRun(canon, createdAt, calls);
    InspectionIsShown(canon, doc, request);
    if request.expectedRevision == doc.revision { InspectorPredictsWriter(canon, createdAt, calls, request); }
    RegistrationAnswers(canon, doc, request);
  }

  /** How the ledger's own rejections are reported. */
  lemma RejectionsAreClassified(error: Error)
    ensures Classified(error) == ActiveRevisionConflict <==> error == ExpectedRevisionMismatch
    ensures Classified(error) == SignalIdentityConflict
       <==> error in {IdentityImmutable, StyleImmutable, SignalAlreadyExists, PublicationIdCollision}
    ensures Classified(error) == TransactionIdentityConflict <==> error in {SignalIdCollision, ReconciliationRequired}
    ensures Classified(error) == ReservationIdentityConflict <==> error == TransitionIdCollision
    ensures Classified(error)
         in {ActiveRevisionConflict, SignalIdentityConflict, TransactionIdentityConflict, ReservationIdentityConflict,
             RegistrationPending}
  {
  }
}
