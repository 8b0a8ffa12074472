/** Registration of completed publications: the pre-check on an unlocked read, the call of
    the ledger, the classification of what came back, and the read-only inspector. */
module Registration {
  import opened Wrappers
  import opened ActiveSignalLedger
  import opened Store = LedgerStore

  datatype Verdict =
    | Registered | Replayed | AlreadyPresent | RegistrationPending
    | InvalidPublicationEvidence | ActiveRevisionConflict
    | SignalIdentityConflict | TransactionIdentityConflict | ReservationIdentityConflict
    | NoRegistration | FailClosed

  datatype Request = Request(
    expectedRevision: int, publication: Publication, transitionId: Id, timestamp: int, repair: bool)

  predicate EvidenceValid(request: Request) {
    && IsIdentifier(request.publication.signalId) && IsIdentifier(request.publication.deliveryId)
    && IsIdentifier(request.publication.symbol) && IsIdentifier(request.transitionId)
  }

  /** The transaction identity is a digest of the whole publication. */
  function ReservationOf(request: Request): Call {
    Reserve(request.expectedRevision, Derived(request.publication), request.transitionId,
            request.publication, request.timestamp, true)
  }

  predicate SignalConflict(doc: Document, publication: Publication) {
    if publication.signalId in doc.signals then doc.signals[publication.signalId].publication != publication
    else DeliveryTaken(doc.signals, publication.deliveryId)
  }

  /** The collisions known before the ledger is asked to persist anything. */
  function KnownConflict(doc: Document, publication: Publication, transitionId: Id): Option<Verdict> {
    var id := Derived(publication);
    if SignalConflict(doc, publication) then Some(SignalIdentityConflict)
    else if id in doc.transactions && doc.transactions[id].publication != publication then
      Some(TransactionIdentityConflict)
    else if id in doc.transactions && doc.transactions[id].reservationTransitionId != transitionId then
      Some(ReservationIdentityConflict)
    else if transitionId in doc.transitions && id !in doc.transactions then Some(ReservationIdentityConflict)
    else None
  }

  predicate MatchesPersisted(canon: Canon, doc: Document, publication: Publication, transitionId: Id) {
    var id := Derived(publication);
    && Valid(canon, doc)
    && publication.signalId in doc.signals && id in doc.transactions && transitionId in doc.transitions
    && doc.signals[publication.signalId].publication == publication
    && doc.transactions[id].publication == publication
    && doc.transactions[id].reservationTransitionId == transitionId
    && doc.transactions[id].state == OccupancyCommitted
    && doc.signals[publication.signalId].state == PublishedPendingEntry
    && doc.signals[publication.signalId].lastTransitionId == transitionId
    && doc.transitions[transitionId].operation == OpReserve
    && doc.transitions[transitionId].signalId == publication.signalId
    && doc.transitions[transitionId].toState == PublishedPendingEntry
  }

  function Classified(error: Error): Verdict {
    match error
    case ExpectedRevisionMismatch => ActiveRevisionConflict
    case IdentityImmutable => SignalIdentityConflict
    case StyleImmutable => SignalIdentityConflict
    case SignalAlreadyExists => SignalIdentityConflict
    case PublicationIdCollision => SignalIdentityConflict
    case SignalIdCollision => TransactionIdentityConflict
    case ReconciliationRequired => TransactionIdentityConflict
    case TransitionIdCollision => ReservationIdentityConflict
    case _ => RegistrationPending
  }

  /** How the document that came back is classified against the one read before. */
  function Accepted(canon: Canon, before: Document, after: Document, request: Request): Verdict {
    var mutated := after.revision == before.revision + 1;
    if !MatchesPersisted(canon, after, request.publication, request.transitionId) then FailClosed
    else if request.repair && !mutated then AlreadyPresent
    else if mutated then Registered
    else Replayed
  }

  /** Registration when the unlocked read saw `before` and the locked call returned `outcome`. */
  function Verdicted(canon: Canon, before: Document, outcome: Outcome, request: Request): Verdict {
    match outcome
    case Ok(after) => Accepted(canon, before, after, request)
    case Err(error) => Classified(error)
  }

  /** What the unlocked read already decides. */
  function Prechecked(before: Document, request: Request): Option<Verdict> {
    if request.expectedRevision != before.revision then Some(ActiveRevisionConflict)
    else KnownConflict(before, request.publication, request.transitionId)
  }

  /** Registration with no other writer between its two reads. */
  function Register(canon: Canon, doc: Document, request: Request): (Verdict, Document) {
    if !EvidenceValid(request) then (InvalidPublicationEvidence, doc)
    else if Prechecked(doc, request).Some? then (Prechecked(doc, request).value, doc)
    else
      var call := ReservationOf(request);
      (Verdicted(canon, doc, Apply(canon, doc, call), request), Next(canon, doc, call))
  }

  /** The inspector: looks at a snapshot and never writes. */
  function Inspected(canon: Canon, doc: Document, request: Request): Verdict {
    if !EvidenceValid(request) then InvalidPublicationEvidence
    else if !Valid(canon, doc) then FailClosed
    else Relation(canon, doc, request.publication, request.transitionId)
  }

  function Relation(canon: Canon, doc: Document, publication: Publication, transitionId: Id): Verdict {
    var id := Derived(publication);
    if SignalConflict(doc, publication) then SignalIdentityConflict
    else if id !in doc.transactions then
      if transitionId in doc.transitions then ReservationIdentityConflict
      else if publication.signalId in doc.signals
           || TransactionTaken(doc.transactions, publication.signalId, publication.deliveryId) then
        TransactionIdentityConflict
      else NoRegistration
    else if doc.transactions[id].publication != publication then TransactionIdentityConflict
    else if doc.transactions[id].reservationTransitionId != transitionId then ReservationIdentityConflict
    else if MatchesPersisted(canon, doc, publication, transitionId) then AlreadyPresent
    else NoRegistration
  }

  /** Registration against the file: an unlocked read, the pre-check, then the locked call. */
  method RegisterPublishedSignal(store: Store.LedgerStore, request: Request) returns (verdict: Verdict)
    modifies store
    ensures !old(store.lockPresent) && old(store.file).Some? && Valid(store.canon, old(store.file).value) ==>
              && verdict == Register(store.canon, old(store.file).value, request).0
              && store.file == Some(Register(store.canon, old(store.file).value, request).1)
    ensures old(store.file).None? || !Valid(store.canon, old(store.file).value) ==>
              && verdict in {InvalidPublicationEvidence, ActiveRevisionConflict, RegistrationPending}
              && store.file == old(store.file)
    ensures old(store.lockPresent) ==> verdict != Registered && store.file == old(store.file)
    ensures store.lockPresent == old(store.lockPresent)
  {
    if !EvidenceValid(request) { return InvalidPublicationEvidence; }
    if request.expectedRevision < 0 { return ActiveRevisionConflict; }
    var read := store.Read();
    if read.Err? { return Classified(read.error); }
    var before := read.value;
    if before.revision != request.expectedRevision { return ActiveRevisionConflict; }
    var conflict := KnownConflict(before, request.publication, request.transitionId);
    if conflict.Some? { return conflict.value; }
    var outcome := store.Reserve(ReservationOf(request));
    verdict := Verdicted(store.canon, before, outcome, request);
  }
}
