/** What the ledger's calls mean in the fields of the document: when each is accepted, what it
    leaves, what a refusal says, and when a repeat is accepted again.  Nothing here is stated
    through the guards and candidates that the calls themselves are made of. */
module LedgerMeaning {
  import opened Wrappers
  import opened ActiveSignalLedger
  import opened LedgerInvariants

  // ---------------------------------------------------------------- validity

  /** The fields that each state of a signal has. */
  ghost predicate FieldsOfState(record: Signal) {
    if record.state == PublishedPendingEntry then
      record.entryAt == None && record.terminalAt == None && record.terminalReason == None
    else if record.state == EntryActive then
      record.entryAt != None && record.terminalAt == None && record.terminalReason == None
    else
      record.terminalAt != None && exists reason :: record.terminalReason == Some(Named(reason))
  }

  ghost predicate SoundSignals(canon: Canon, signals: map<Id, Signal>) {
    && (forall s :: s in signals ==>
          && s != Blank && signals[s].publication.signalId == s && signals[s].publication.deliveryId != Blank
          && signals[s].publication.symbol != Blank && canon(signals[s].publication.symbol) != None
          && signals[s].lastTransitionId != Blank && FieldsOfState(signals[s]))
    && (forall a, b :: a in signals && b in signals && a != b ==>
          && signals[a].publication.deliveryId != signals[b].publication.deliveryId
          && (signals[a].state == EntryActive && signals[b].state == EntryActive ==>
                canon(signals[a].publication.symbol) != canon(signals[b].publication.symbol)))
  }

  ghost predicate SoundLogs(doc: Document) {
    && (forall t :: t in doc.transitions ==>
          && t != Blank && doc.transitions[t].transitionId == t && doc.transitions[t].signalId != Blank
          && doc.transitions[t].signalId in doc.signals && doc.transitions[t].terminalReason != Some(Blank))
    && (forall t :: t in doc.transactions ==>
          && t != Given(Blank) && doc.transactions[t].transactionId == t
          && doc.transactions[t].publication.signalId != Blank && doc.transactions[t].publication.deliveryId != Blank
          && doc.transactions[t].publication.symbol != Blank && doc.transactions[t].reservationTransitionId != Blank
          && (doc.transactions[t].state == Aborted <==> doc.transactions[t].abortedAt != None)
          && (doc.transactions[t].state == Aborted <==> doc.transactions[t].abortReason != None)
          && doc.transactions[t].abortReason != Some(Blank)
          && (doc.transactions[t].state == OccupancyCommitted ==>
                && doc.transactions[t].publication.signalId in doc.signals
                && doc.signals[doc.transactions[t].publication.signalId].publication == doc.transactions[t].publication))
  }

  ghost predicate AreEntered(signals: map<Id, Signal>, some: set<Id>) {
    forall s :: s in some ==> s in signals && signals[s].state == EntryActive
  }

  ghost predicate AreOfStyle(signals: map<Id, Signal>, some: set<Id>, mode: Style) {
    forall s :: s in some ==> s in signals && signals[s].publication.mode == mode
  }

  /** No more than three signals of a style are entered, and no more than nine in all. */
  ghost predicate SlotsHeld(signals: map<Id, Signal>) {
    && (forall mode, some :: AreEntered(signals, some) && AreOfStyle(signals, some, mode) ==> |some| <= 3)
    && (forall some :: AreEntered(signals, some) ==> |some| <= 9)
  }

  lemma SignalsMean(canon: Canon, signals: map<Id, Signal>)
    ensures SoundSignals(canon, signals)
       <==> && (forall s :: s in signals ==> ValidSignal(canon, s, signals[s]))
            && DeliveriesDistinct(signals) && ActivePairsDistinct(canon, signals)
  {
    forall s | s in signals ensures FieldsOfState(signals[s]) == StateFieldsAgree(signals[s]) {
      var record := signals[s];
      if record.terminalReason.Some? && record.terminalReason.value.Named? {
        assert record.terminalReason == Some(Named(record.terminalReason.value.text));
      }
    }
  }

  lemma LogsMean(doc: Document)
    ensures SoundLogs(doc) <==> LogsValid(doc)
  {
  }

  lemma EnteredSplit(signals: map<Id, Signal>, some: set<Id>)
    requires AreEntered(signals, some)
    ensures |some| <= TotalActive(signals)
  {
    var swing := set s | s in some && signals[s].publication.mode == Swing;
    var intraday := set s | s in some && signals[s].publication.mode == Intraday;
    var scalp := set s | s in some && signals[s].publication.mode == Scalp;
    assert some == swing + intraday + scalp;
    SubsetSmaller(swing, ActiveOf(signals, Swing));
    SubsetSmaller(intraday, ActiveOf(signals, Intraday));
    SubsetSmaller(scalp, ActiveOf(signals, Scalp));
  }

  lemma SlotsMean(signals: map<Id, Signal>)
    ensures SlotsHeld(signals) <==> WithinCapacity(signals)
  {
    if WithinCapacity(signals) {
      forall mode, some | AreEntered(signals, some) && AreOfStyle(signals, some, mode) ensures |some| <= 3 {
        assert |ActiveOf(signals, mode)| <= 3;
        SubsetSmaller(some, ActiveOf(signals, mode));
      }
      forall some | AreEntered(signals, some) ensures |some| <= 9 {
        EnteredSplit(signals, some);
      }
    }
    if SlotsHeld(signals) {
      forall mode ensures |ActiveOf(signals, mode)| <= 3 {
        assert AreEntered(signals, ActiveOf(signals, mode)) && AreOfStyle(signals, ActiveOf(signals, mode), mode);
      }
    }
  }

  /** A document is valid if and only if, field by field, its signals and logs are sound and no
      more slots are held than there are. */
  lemma ValidMeans(canon: Canon, doc: Document)
    ensures Valid(canon, doc) <==> SoundSignals(canon, doc.signals) && SlotsHeld(doc.signals) && SoundLogs(doc)
  {
    SignalsMean(canon, doc.signals);
    LogsMean(doc);
    SlotsMean(doc.signals);
  }

  /** So in every run from the empty ledger. */
  lemma {:induction false} ReachableIsSound(canon: Canon, createdAt: int, calls: seq<Call>)
    ensures var doc := Run(canon, Document(0, createdAt, createdAt, map[], map[], map[]), calls);
            SoundSignals(canon, doc.signals) && SlotsHeld(doc.signals) && SoundLogs(doc)
  {
    ReachableInv(canon, createdAt, calls);
    ValidMeans(canon, Run(canon, EmptyLedger(createdAt), calls));
  }

  // ---------------------------------------------------------------- reservations

  ghost predicate NamesAll(canon: Canon, call: Call)
    requires call.Reserve?
  {
    && call.transactionId != Given(Blank) && call.transitionId != Blank && call.publication.signalId != Blank
    && call.publication.deliveryId != Blank && call.publication.symbol != Blank && canon(call.publication.symbol) != None
  }

  /** Nothing of the publication is known, and nothing is under way. */
  ghost predicate NothingKnown(doc: Document, call: Call)
    requires call.Reserve?
  {
    && call.transactionId !in doc.transactions && call.expectedRevision == doc.revision
    && call.publication.signalId !in doc.signals
    && (forall s :: s in doc.signals ==> doc.signals[s].publication.deliveryId != call.publication.deliveryId)
    && forall t :: t in doc.transactions ==>
         && doc.transactions[t].state != Prepared
         && doc.transactions[t].publication.signalId != call.publication.signalId
         && doc.transactions[t].publication.deliveryId != call.publication.deliveryId
  }

  ghost predicate KnownAlready(doc: Document, call: Call)
    requires call.Reserve?
  {
    && call.transactionId in doc.transactions
    && doc.transactions[call.transactionId].publication == call.publication
    && doc.transactions[call.transactionId].reservationTransitionId == call.transitionId
  }

  lemma NothingKnownIsNew(canon: Canon, doc: Document, call: Call)
    requires call.Reserve?
    ensures NamesAll(canon, call) && NothingKnown(doc, call) <==> NewReservation(canon, doc, call)
  {
  }

  /** The document once a publication occupies its place. */
  function Occupied(doc: Document, call: Call, createdAt: int): Document
    requires call.Reserve?
  {
    Document(
      doc.revision + 1, doc.createdAt, call.updatedAt,
      doc.signals[call.publication.signalId :=
        Signal(call.publication, PublishedPendingEntry, None, None, None, call.transitionId, call.updatedAt,
               call.updatedAt)],
      doc.transitions[call.transitionId :=
        Transition(call.transitionId, OpReserve, call.publication.signalId, None, PublishedPendingEntry, call.updatedAt,
                   None, doc.revision + 1)],
      doc.transactions[call.transactionId :=
        Transaction(call.transactionId, call.publication, call.transitionId, OccupancyCommitted, createdAt,
                    call.updatedAt, None, None)])
  }

  function OnlyPrepared(doc: Document, call: Call): Document
    requires call.Reserve?
  {
    Document(
      doc.revision + 1, doc.createdAt, call.updatedAt, doc.signals, doc.transitions,
      doc.transactions[call.transactionId :=
        Transaction(call.transactionId, call.publication, call.transitionId, Prepared, call.updatedAt, call.updatedAt,
                    None, None)])
  }

  lemma NewReserveLeaves(canon: Canon, doc: Document, call: Call)
    requires Inv(canon, doc) && call.Reserve? && NewReservation(canon, doc, call)
    ensures ReservePublishedSignal(canon, doc, call)
         == Ok(if call.durable then Occupied(doc, call, call.updatedAt) else OnlyPrepared(doc, call))
  {
    NeverCorrupt(canon, doc, call);
    ReserveCases(canon, doc, call);
    OccupiedIs(doc, call);
    OnlyPreparedIs(doc, call);
  }

  /** On a sound document no call is refused by the validation before writing. */
  lemma NeverCorrupt(canon: Canon, doc: Document, call: Call)
    requires Inv(canon, doc)
    ensures Apply(canon, doc, call) != Err(LedgerCorrupt)
  {
    CallKeeps(canon, doc, call);
  }

  lemma OccupiedIs(doc: Document, call: Call)
    requires call.Reserve?
    ensures Bumped(CommitOccupancy(WithCandidate(doc, call), call.transactionId, call.updatedAt), call.updatedAt)
         == Occupied(doc, call, call.updatedAt)
  {
    var left := CommitOccupancy(WithCandidate(doc, call), call.transactionId, call.updatedAt);
    assert left.transactions == Occupied(doc, call, call.updatedAt).transactions;
  }

  lemma OnlyPreparedIs(doc: Document, call: Call)
    requires call.Reserve?
    ensures Bumped(WithCandidate(doc, call), call.updatedAt) == OnlyPrepared(doc, call)
  {
  }

  lemma KnownReserveLeaves(canon: Canon, doc: Document, call: Call)
    requires Inv(canon, doc) && call.Reserve? && NamesAll(canon, call) && KnownAlready(doc, call)
    ensures ReservePublishedSignal(canon, doc, call)
         == Ok(if call.durable && doc.transactions[call.transactionId].state == Prepared
               then Occupied(doc, call, doc.transactions[call.transactionId].createdAt) else doc)
  {
    NeverCorrupt(canon, doc, call);
    assert ValidTransaction(call.transactionId, doc.transactions[call.transactionId], doc.signals);
  }

  /** A reservation is accepted if and only if the publication is new and nothing is under way, or
      exactly this transaction is known already; it then occupies its place, is only prepared, or
      leaves the document alone. */
  lemma {:induction false} ReserveMeans(canon: Canon, createdAt: int, calls: seq<Call>, call: Call)
    requires call.Reserve?
    ensures var doc := Run(canon, EmptyLedger(createdAt), calls);
            var outcome := ReservePublishedSignal(canon, doc, call);
            && (outcome.Ok? <==> NamesAll(canon, call) && (NothingKnown(doc, call) || KnownAlready(doc, call)))
            && (outcome.Ok? && NothingKnown(doc, call) ==>
                  outcome.value == if call.durable then Occupied(doc, call, call.updatedAt) else OnlyPrepared(doc, call))
            && (outcome.Ok? && KnownAlready(doc, call) ==>
                  outcome.value == if call.durable && doc.transactions[call.transactionId].state == Prepared
                                   then Occupied(doc, call, doc.transactions[call.transactionId].createdAt) else doc)
  {
    var doc := Run(canon, EmptyLedger(createdAt), calls);
    ReachableInv(canon, createdAt, calls);
    ReserveAnswer(canon, doc, call);
  }

  lemma {:induction false} ReserveAnswer(canon: Canon, doc: Document, call: Call)
    requires Inv(canon, doc) && call.Reserve?
    ensures NamesAll(canon, call) && NothingKnown(doc, call) ==>
              ReservePublishedSignal(canon, doc, call)
              == Ok(if call.durable then Occupied(doc, call, call.updatedAt) else OnlyPrepared(doc, call))
    ensures NamesAll(canon, call) && KnownAlready(doc, call) ==>
              ReservePublishedSignal(canon, doc, call)
              == Ok(if call.durable && doc.transactions[call.transactionId].state == Prepared
                    then Occupied(doc, call, doc.transactions[call.transactionId].createdAt) else doc)
    ensures !(NamesAll(canon, call) && (NothingKnown(doc, call) || KnownAlready(doc, call))) ==>
              ReservePublishedSignal(canon, doc, call).Err?
  {
    NothingKnownIsNew(canon, doc, call);
    if NewReservation(canon, doc, call) { NewReserveLeaves(canon, doc, call); }
    else if NamesAll(canon, call) && KnownAlready(doc, call) { KnownReserveLeaves(canon, doc, call); }
    else { OtherReserveRefused(canon, doc, call); }
  }

  lemma OtherReserveRefused(canon: Canon, doc: Document, call: Call)
    requires call.Reserve? && !NewReservation(canon, doc, call) && !(NamesAll(canon, call) && KnownAlready(doc, call))
    ensures ReservePublishedSignal(canon, doc, call).Err?
  {
  }

  // ---------------------------------------------------------------- entries

  ghost predicate MayEnter(canon: Canon, doc: Document, call: Call)
    requires call.Entry?
  {
    && call.transitionId != Blank && call.transitionId !in doc.transitions && call.expectedRevision == doc.revision
    && call.signalId in doc.signals && doc.signals[call.signalId].state == PublishedPendingEntry
    && |set s | s in doc.signals && doc.signals[s].state == EntryActive
             && doc.signals[s].publication.mode == doc.signals[call.signalId].publication.mode| < 3
    && forall s :: s in doc.signals && doc.signals[s].state == EntryActive ==>
         canon(doc.signals[s].publication.symbol) != canon(doc.signals[call.signalId].publication.symbol)
  }

  /** The very entry is on record. */
  ghost predicate EntryOnRecord(doc: Document, call: Call)
    requires call.Entry?
  {
    && call.transitionId != Blank && call.signalId in doc.signals && call.transitionId in doc.transitions
    && exists revision: nat ::
         doc.transitions[call.transitionId]
         == Transition(call.transitionId, OpEntry, call.signalId, Some(PublishedPendingEntry), EntryActive, call.entryAt,
                       None, revision)
  }

  function EntryLeft(doc: Document, call: Call): Document
    requires call.Entry? && call.signalId in doc.signals
  {
    var was := doc.signals[call.signalId];
    Document(
      doc.revision + 1, doc.createdAt, call.updatedAt,
      doc.signals[call.signalId :=
        Signal(was.publication, EntryActive, Some(call.entryAt), was.terminalAt, was.terminalReason, call.transitionId,
               was.createdAt, call.updatedAt)],
      doc.transitions[call.transitionId :=
        Transition(call.transitionId, OpEntry, call.signalId, Some(PublishedPendingEntry), EntryActive, call.entryAt,
                   None, doc.revision + 1)],
      doc.transactions)
  }

  lemma MayEnterIsAdmitted(canon: Canon, doc: Document, call: Call)
    requires call.Entry?
    ensures MayEnter(canon, doc, call) <==> EntryAdmitted(canon, doc, call)
  {
    if call.signalId in doc.signals {
      var mode := doc.signals[call.signalId].publication.mode;
      assert ActiveOf(doc.signals, mode)
          == set s | s in doc.signals && doc.signals[s].state == EntryActive && doc.signals[s].publication.mode == mode;
    }
  }

  lemma AdmittedEntryLeaves(canon: Canon, doc: Document, call: Call)
    requires Inv(canon, doc) && call.Entry? && EntryAdmitted(canon, doc, call)
    ensures MarkEntryActive(canon, doc, call) == Ok(EntryLeft(doc, call))
  {
    NeverCorrupt(canon, doc, call);
    EntryCases(canon, doc, call);
    EntryLeftIs(doc, call);
  }

  lemma EntryLeftIs(doc: Document, call: Call)
    requires call.Entry? && call.signalId in doc.signals
    ensures Bumped(EntryMove(doc, call), call.updatedAt) == EntryLeft(doc, call)
  {
  }

  lemma OtherEntry(canon: Canon, doc: Document, call: Call)
    requires call.Entry? && WithinCapacity(doc.signals) && !EntryAdmitted(canon, doc, call)
    ensures MarkEntryActive(canon, doc, call).Ok?
       <==> EntryOnRecord(doc, call) && (call.requireCurrent ==> call.expectedRevision == doc.revision)
    ensures MarkEntryActive(canon, doc, call).Ok? ==> MarkEntryActive(canon, doc, call).value == doc
  {
    EntryCases(canon, doc, call);
    if call.transitionId in doc.transitions {
      var t := doc.transitions[call.transitionId];
      assert SameTransition(t, EntryTransition(doc, call))
         <==> t == Transition(call.transitionId, OpEntry, call.signalId, Some(PublishedPendingEntry), EntryActive,
                              call.entryAt, None, t.ledgerRevision);
    }
  }

  /** An entry is accepted if and only if its signal is pending with a free slot and a free pair,
      or this very entry is on record; the one enters the signal, the other changes nothing. */
  lemma EntryMeans(canon: Canon, doc: Document, call: Call)
    requires Inv(canon, doc) && call.Entry?
    ensures MayEnter(canon, doc, call) ==> MarkEntryActive(canon, doc, call) == Ok(EntryLeft(doc, call))
    ensures !MayEnter(canon, doc, call) ==>
              && (MarkEntryActive(canon, doc, call) == Ok(doc)
                  <==> EntryOnRecord(doc, call) && (call.requireCurrent ==> call.expectedRevision == doc.revision))
              && (MarkEntryActive(canon, doc, call).Ok? ==> MarkEntryActive(canon, doc, call).value == doc)
  {
    MayEnterIsAdmitted(canon, doc, call);
    if EntryAdmitted(canon, doc, call) { AdmittedEntryLeaves(canon, doc, call); } else { OtherEntry(canon, doc, call); }
  }

  // ---------------------------------------------------------------- endings

  predicate EndsLife(state: State) {
    state in {ClosedProfit, ClosedStopLoss, ClosedManual, RejectedByOwner, Cancelled, Expired, Invalidated}
  }

  ghost predicate MayEnd(doc: Document, call: Call)
    requires call.Terminal?
  {
    && EndsLife(call.terminalState) && call.reason != Blank && call.transitionId != Blank
    && call.transitionId !in doc.transitions && call.expectedRevision == doc.revision && call.signalId in doc.signals
    && (doc.signals[call.signalId].state == PublishedPendingEntry
        || (doc.signals[call.signalId].state == EntryActive && call.terminalState != Expired))
  }

  /** The very ending is on record. */
  ghost predicate EndingOnRecord(doc: Document, call: Call)
    requires call.Terminal?
  {
    && EndsLife(call.terminalState) && call.reason != Blank && call.transitionId in doc.transitions
    && doc.transitions[call.transitionId].operation == OpTerminal
    && doc.transitions[call.transitionId].signalId == call.signalId
    && doc.transitions[call.transitionId].toState == call.terminalState
    && doc.transitions[call.transitionId].occurredAt == call.terminalAt
    && doc.transitions[call.transitionId].terminalReason == Some(call.reason)
  }

  /** Under a transition that is not on record, the signal has ended in just this way. */
  ghost predicate EndedJustSo(doc: Document, call: Call)
    requires call.Terminal?
  {
    && EndsLife(call.terminalState) && call.reason != Blank && call.transitionId !in doc.transitions
    && call.signalId in doc.signals && doc.signals[call.signalId].state == call.terminalState
    && doc.signals[call.signalId].terminalAt == Some(call.terminalAt)
    && doc.signals[call.signalId].terminalReason == Some(call.reason)
  }

  function EndingLeft(doc: Document, call: Call): Document
    requires call.Terminal? && call.signalId in doc.signals
  {
    var was := doc.signals[call.signalId];
    Document(
      doc.revision + 1, doc.createdAt, call.updatedAt,
      doc.signals[call.signalId :=
        Signal(was.publication, call.terminalState, was.entryAt, Some(call.terminalAt), Some(call.reason),
               call.transitionId, was.createdAt, call.updatedAt)],
      doc.transitions[call.transitionId :=
        Transition(call.transitionId, OpTerminal, call.signalId, Some(was.state), call.terminalState, call.terminalAt,
                   Some(call.reason), doc.revision + 1)],
      doc.transactions)
  }

  /** An ending is accepted if and only if its signal may end so, or this very ending is on record,
      or the signal has ended just so at the current revision; the first ends the signal, the
      others change nothing. */
  lemma TerminalMeans(canon: Canon, doc: Document, call: Call)
    requires Inv(canon, doc) && call.Terminal?
    ensures MayEnd(doc, call) ==> TransitionTerminal(canon, doc, call) == Ok(EndingLeft(doc, call))
    ensures !MayEnd(doc, call) ==>
              && (TransitionTerminal(canon, doc, call) == Ok(doc)
                  <==> || (EndingOnRecord(doc, call) && (call.requireCurrent ==> call.expectedRevision == doc.revision))
                       || (EndedJustSo(doc, call) && call.expectedRevision == doc.revision))
              && (TransitionTerminal(canon, doc, call).Ok? ==> TransitionTerminal(canon, doc, call).value == doc)
  {
    MayEndIsAdmitted(doc, call);
    if EndingAdmitted(doc, call) { AdmittedEndingLeaves(canon, doc, call); } else { OtherEnding(canon, doc, call); }
  }

  lemma MayEndIsAdmitted(doc: Document, call: Call)
    requires call.Terminal?
    ensures MayEnd(doc, call) <==> EndingAdmitted(doc, call)
  {
  }

  lemma AdmittedEndingLeaves(canon: Canon, doc: Document, call: Call)
    requires Inv(canon, doc) && call.Terminal? && EndingAdmitted(doc, call)
    ensures TransitionTerminal(canon, doc, call) == Ok(EndingLeft(doc, call))
  {
    NeverCorrupt(canon, doc, call);
    TerminalCases(canon, doc, call);
    EndingLeftIs(doc, call);
  }

  lemma EndingLeftIs(doc: Document, call: Call)
    requires call.Terminal? && call.signalId in doc.signals
    ensures Bumped(EndingMove(doc, call), call.updatedAt) == EndingLeft(doc, call)
  {
  }

  lemma OtherEnding(canon: Canon, doc: Document, call: Call)
    requires call.Terminal? && !EndingAdmitted(doc, call)
    ensures TransitionTerminal(canon, doc, call) == Ok(doc)
       <==> || (EndingOnRecord(doc, call) && (call.requireCurrent ==> call.expectedRevision == doc.revision))
            || (EndedJustSo(doc, call) && call.expectedRevision == doc.revision)
    ensures TransitionTerminal(canon, doc, call).Ok? ==> TransitionTerminal(canon, doc, call).value == doc
  {
    TerminalCases(canon, doc, call);
  }

  /** An ending under a recorded transition that differs from it in its operation, signal, state,
      time or reason is refused. */
  lemma DifferingEndingIsRefused(canon: Canon, doc: Document, call: Call, recorded: Transition)
    requires call.Terminal? && call.transitionId in doc.transitions && doc.transitions[call.transitionId] == recorded
    requires || recorded.operation != OpTerminal || recorded.signalId != call.signalId
             || recorded.toState != call.terminalState || recorded.occurredAt != call.terminalAt
             || recorded.terminalReason != Some(call.reason)
    ensures TransitionTerminal(canon, doc, call).Err?
  {
    OtherEnding(canon, doc, call);
  }

  /** And so is an entry that differs from it in its operation, signal, states or time. */
  lemma DifferingEntryIsRefused(canon: Canon, doc: Document, call: Call, recorded: Transition)
    requires call.Entry? && call.transitionId in doc.transitions && doc.transitions[call.transitionId] == recorded
    requires || recorded.operation != OpEntry || recorded.signalId != call.signalId
             || recorded.fromState != Some(PublishedPendingEntry) || recorded.toState != EntryActive
             || recorded.occurredAt != call.entryAt || recorded.transitionId != call.transitionId
    ensures MarkEntryActive(canon, doc, call).Err?
  {
  }

  // ---------------------------------------------------------------- reconciliation

  /** A prepared transaction is committed on matching evidence, aborted on none, and left alone
      once it is settled; anything else is refused. */
  lemma ReconcileMeans(canon: Canon, doc: Document, call: Call)
    requires Inv(canon, doc) && call.Reconcile?
    ensures var outcome := ReconcilePublicationState(canon, doc, call);
            var known := call.transactionId != Given(Blank) && call.expectedRevision == doc.revision
                         && call.transactionId in doc.transactions;
            && (!known ==>
                  outcome == Err(if call.transactionId == Given(Blank) then TransactionIdInvalid
                                 else if call.expectedRevision != doc.revision then ExpectedRevisionMismatch
                                 else ReconciliationRequired))
            && (known && doc.transactions[call.transactionId].state != Prepared ==> outcome == Ok(doc))
            && (known && doc.transactions[call.transactionId].state == Prepared ==>
                  outcome == Reconciled(doc, call, doc.transactions[call.transactionId]))
  {
    ReconcileKeeps(canon, doc, call);
    if call.transactionId in doc.transactions {
      assert ValidTransaction(call.transactionId, doc.transactions[call.transactionId], doc.signals);
    }
  }

  function Reconciled(doc: Document, call: Call, was: Transaction): Outcome
    requires call.Reconcile?
  {
    var publication := was.publication;
    if call.artifactExists
       && call.artifactSignalId == Some(publication.signalId) && call.artifactDeliveryId == Some(publication.deliveryId)
       && call.artifactHash == Some(publication.payloadHash) then
      Ok(Document(
           doc.revision + 1, doc.createdAt, call.updatedAt,
           doc.signals[publication.signalId :=
             Signal(publication, PublishedPendingEntry, None, None, None, was.reservationTransitionId, call.updatedAt,
                    call.updatedAt)],
           doc.transitions[was.reservationTransitionId :=
             Transition(was.reservationTransitionId, OpReserve, publication.signalId, None, PublishedPendingEntry,
                        call.updatedAt, None, doc.revision + 1)],
           doc.transactions[call.transactionId :=
             Transaction(was.transactionId, publication, was.reservationTransitionId, OccupancyCommitted, was.createdAt,
                         call.updatedAt, was.abortedAt, was.abortReason)]))
    else if call.artifactExists then Err(ReconciliationRequired)
    else if call.artifactSignalId != None || call.artifactDeliveryId != None || call.artifactHash != None then
      Err(ReconciliationRequired)
    else if call.abortReason == Blank then Err(TerminalReasonInvalid)
    else
      Ok(Document(
           doc.revision + 1, doc.createdAt, call.updatedAt, doc.signals, doc.transitions,
           doc.transactions[call.transactionId :=
             Transaction(was.transactionId, publication, was.reservationTransitionId, Aborted, was.createdAt,
                         call.updatedAt, Some(call.updatedAt), Some(call.abortReason))]))
  }

  // ---------------------------------------------------------------- refusals

  /** There is a refusal exactly when there is a fault, and for that. */
  ghost predicate IsRefusedFor(outcome: Outcome, fault: Option<Error>) {
    match outcome
    case Err(error) => fault == Some(error)
    case Ok(_) => fault == None
  }

  /** Why an entry is refused: the first of these that applies. */
  ghost function EntryFault(canon: Canon, doc: Document, call: Call): Option<Error>
    requires call.Entry?
  {
    var current := call.expectedRevision == doc.revision;
    if call.signalId !in doc.signals then Some(SignalIdInvalid)
    else if call.transitionId == Blank then Some(TransitionIdCollision)
    else if call.transitionId in doc.transitions then
      if !EntryOnRecord(doc, call) then Some(if current then TransitionIdCollision else ExpectedRevisionMismatch)
      else if call.requireCurrent && !current then Some(ExpectedRevisionMismatch)
      else None
    else if !current then Some(ExpectedRevisionMismatch)
    else if EndsLife(doc.signals[call.signalId].state) then Some(TerminalSignalReopenForbidden)
    else if doc.signals[call.signalId].state == EntryActive then Some(LifecycleTransitionInvalid)
    else if StyleIsFull(doc, call.signalId) then Some(StyleCapacityFull)
    else if PairIsTaken(canon, doc, call.signalId) then Some(GlobalPairAlreadyActive)
    else None
  }

  /** Three signals of the style are entered. */
  ghost predicate StyleIsFull(doc: Document, signalId: Id)
    requires signalId in doc.signals
  {
    |set s | s in doc.signals && doc.signals[s].state == EntryActive
          && doc.signals[s].publication.mode == doc.signals[signalId].publication.mode| >= 3
  }

  /** Another signal is entered on the same canonical pair. */
  ghost predicate PairIsTaken(canon: Canon, doc: Document, signalId: Id)
    requires signalId in doc.signals
  {
    exists s :: s in doc.signals && s != signalId && doc.signals[s].state == EntryActive
             && canon(doc.signals[s].publication.symbol) == canon(doc.signals[signalId].publication.symbol)
  }

  lemma EntryRefusedFor(canon: Canon, doc: Document, call: Call)
    requires Inv(canon, doc) && call.Entry?
    ensures IsRefusedFor(MarkEntryActive(canon, doc, call), EntryFault(canon, doc, call))
  {
    if EntryAdmitted(canon, doc, call) {
      AdmittedEntryLeaves(canon, doc, call);
      AdmittedEntryHasNoFault(canon, doc, call);
    } else {
      OtherEntryFault(canon, doc, call);
    }
  }

  lemma AdmittedEntryHasNoFault(canon: Canon, doc: Document, call: Call)
    requires call.Entry? && EntryAdmitted(canon, doc, call)
    ensures EntryFault(canon, doc, call) == None
  {
    StyleFills(doc, call.signalId);
  }

  lemma StyleFills(doc: Document, signalId: Id)
    requires signalId in doc.signals
    ensures StyleIsFull(doc, signalId) <==> |ActiveOf(doc.signals, doc.signals[signalId].publication.mode)| >= 3
  {
    var mode := doc.signals[signalId].publication.mode;
    assert ActiveOf(doc.signals, mode)
        == set s | s in doc.signals && doc.signals[s].state == EntryActive && doc.signals[s].publication.mode == mode;
  }

  lemma OtherEntryFault(canon: Canon, doc: Document, call: Call)
    requires WithinCapacity(doc.signals) && call.Entry? && !EntryAdmitted(canon, doc, call)
    ensures IsRefusedFor(MarkEntryActive(canon, doc, call), EntryFault(canon, doc, call))
  {
    EntryCases(canon, doc, call);
    OtherEntry(canon, doc, call);
    if call.signalId in doc.signals { StyleFills(doc, call.signalId); }
  }

  /** Why an ending is refused. */
  ghost function EndingFault(doc: Document, call: Call): Option<Error>
    requires call.Terminal?
  {
    var current := call.expectedRevision == doc.revision;
    if !EndsLife(call.terminalState) then Some(LifecycleTransitionInvalid)
    else if call.reason == Blank then Some(TerminalReasonInvalid)
    else if call.transitionId in doc.transitions then
      if !EndingOnRecord(doc, call) then Some(if current then TransitionIdCollision else ExpectedRevisionMismatch)
      else if call.requireCurrent && !current then Some(ExpectedRevisionMismatch)
      else None
    else if !current then Some(ExpectedRevisionMismatch)
    else if call.signalId !in doc.signals then Some(SignalIdInvalid)
    else if EndsLife(doc.signals[call.signalId].state) then
      if EndedJustSo(doc, call) then None else Some(TerminalSignalReopenForbidden)
    else if doc.signals[call.signalId].state == EntryActive && call.terminalState == Expired then
      Some(LifecycleTransitionInvalid)
    else if call.transitionId == Blank then Some(TransitionIdCollision)
    else None
  }

  lemma EndingRefusedFor(canon: Canon, doc: Document, call: Call)
    requires Inv(canon, doc) && call.Terminal?
    ensures IsRefusedFor(TransitionTerminal(canon, doc, call), EndingFault(doc, call))
  {
    if EndingAdmitted(doc, call) {
      AdmittedEndingLeaves(canon, doc, call);
      AdmittedEndingHasNoFault(doc, call);
    } else {
      OtherEndingFault(canon, doc, call);
    }
  }

  lemma AdmittedEndingHasNoFault(doc: Document, call: Call)
    requires call.Terminal? && EndingAdmitted(doc, call)
    ensures EndingFault(doc, call) == None
  {
  }

  lemma OtherEndingFault(canon: Canon, doc: Document, call: Call)
    requires call.Terminal? && !EndingAdmitted(doc, call)
    ensures IsRefusedFor(TransitionTerminal(canon, doc, call), EndingFault(doc, call))
  {
    TerminalCases(canon, doc, call);
  }

  /** Why a reservation is refused. */
  ghost function ReserveFault(canon: Canon, doc: Document, call: Call): Option<Error>
    requires call.Reserve?
  {
    var publication := call.publication;
    if call.transactionId == Given(Blank) then Some(TransactionIdInvalid)
    else if call.transitionId == Blank then Some(TransitionIdCollision)
    else if publication.signalId == Blank then Some(SignalIdInvalid)
    else if publication.deliveryId == Blank then Some(PublicationIdCollision)
    else if publication.symbol == Blank then Some(SignalIdInvalid)
    else if canon(publication.symbol) == None then Some(PairInvalid)
    else if call.transactionId in doc.transactions then
      if KnownAlready(doc, call) then None else Some(TransitionIdCollision)
    else if call.expectedRevision != doc.revision then Some(ExpectedRevisionMismatch)
    else if exists t :: t in doc.transactions && doc.transactions[t].state == Prepared
                     && !(doc.transactions[t].publication.signalId == publication.signalId
                          && doc.transactions[t].publication.deliveryId == publication.deliveryId) then
      Some(ReconciliationRequired)
    else if publication.signalId in doc.signals then Some(KnownSignalFault(doc.signals[publication.signalId], publication))
    else if exists s :: s in doc.signals && doc.signals[s].publication.deliveryId == publication.deliveryId then
      Some(PublicationIdCollision)
    else if exists t :: t in doc.transactions
                     && (doc.transactions[t].publication.signalId == publication.signalId
                         || doc.transactions[t].publication.deliveryId == publication.deliveryId) then
      Some(SignalIdCollision)
    else None
  }

  function KnownSignalFault(record: Signal, publication: Publication): Error {
    var known := record.publication;
    if known.mode != publication.mode then StyleImmutable
    else if known.symbol == publication.symbol && known.sourceHash == publication.sourceHash
         && known.payloadHash == publication.payloadHash then SignalAlreadyExists
    else IdentityImmutable
  }

  lemma ReserveRefusedFor(canon: Canon, doc: Document, call: Call)
    requires Inv(canon, doc) && call.Reserve?
    ensures IsRefusedFor(ReservePublishedSignal(canon, doc, call), ReserveFault(canon, doc, call))
  {
    NothingKnownIsNew(canon, doc, call);
    if NewReservation(canon, doc, call) { NewReserveLeaves(canon, doc, call); }
    else if NamesAll(canon, call) && KnownAlready(doc, call) { KnownReserveLeaves(canon, doc, call); }
    else { OtherReserveFault(canon, doc, call); }
  }

  lemma OtherReserveFault(canon: Canon, doc: Document, call: Call)
    requires call.Reserve? && !NewReservation(canon, doc, call) && !(NamesAll(canon, call) && KnownAlready(doc, call))
    ensures IsRefusedFor(ReservePublishedSignal(canon, doc, call), ReserveFault(canon, doc, call))
  {
  }

  /** Every refusal on a reachable ledger is for the first fault there is, and there is a refusal
      exactly when there is a fault. */
  lemma {:induction false} RefusalsMean(canon: Canon, createdAt: int, calls: seq<Call>, call: Call)
    requires !call.Reconcile?
    ensures var doc := Run(canon, EmptyLedger(createdAt), calls);
            IsRefusedFor(Apply(canon, doc, call), FaultOf(canon, doc, call))
  {
    var doc := Run(canon, EmptyLedger(createdAt), calls);
    ReachableInv(canon, createdAt, calls);
    if call.Reserve? { ReserveRefusedFor(canon, doc, call); }
    else if call.Entry? { EntryRefusedFor(canon, doc, call); }
    else { EndingRefusedFor(canon, doc, call); }
  }

  ghost function FaultOf(canon: Canon, doc: Document, call: Call): Option<Error>
    requires !call.Reconcile?
  {
    if call.Reserve? then ReserveFault(canon, doc, call)
    else if call.Entry? then EntryFault(canon, doc, call)
    else EndingFault(doc, call)
  }
}
