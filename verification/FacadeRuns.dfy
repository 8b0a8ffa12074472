/** Runs through the registration facade: publications are reserved only by registration,
    signals move only by entry and terminal calls.  In such runs the transitions are an
    append-only log that accounts for every signal. */
module FacadeRuns {
  import opened Wrappers
  import opened ActiveSignalLedger
  import opened LedgerInvariants
  import opened Registration

  type LifecycleCall = call: Call | call.Entry? || call.Terminal?
    witness Entry(0, Blank, Blank, 0, 0, false)

  datatype FacadeCall = Publish(request: Request) | Lifecycle(call: LifecycleCall)

  function FacadeNext(canon: Canon, doc: Document, call: FacadeCall): Document {
    match call
    case Publish(request) => Register(canon, doc, request).1
    case Lifecycle(call) => Next(canon, doc, call)
  }

  function FacadeRun(canon: Canon, doc: Document, calls: seq<FacadeCall>): Document
    decreases |calls|
  {
    if calls == [] then doc
    else FacadeNext(canon, FacadeRun(canon, doc, calls[..|calls| - 1]), calls[|calls| - 1])
  }

  // ---------------------------------------------------------------- the log

  /** `log` lists the transitions of `doc` in the order of their revisions, which are exactly
      one to the ledger's revision. */
  ghost predicate IsLog(doc: Document, log: seq<Transition>) {
    && |log| == doc.revision
    && (forall i :: 0 <= i < |log| ==>
          && log[i].ledgerRevision == i + 1
          && log[i].transitionId in doc.transitions
          && doc.transitions[log[i].transitionId] == log[i])
    && (forall t :: t in doc.transitions ==> doc.transitions[t] in log)
  }

  /** What the log says about one signal. */
  datatype Life = Life(
    state: State, entryAt: Option<int>, terminalAt: Option<int>, terminalReason: Option<Id>, lastTransitionId: Id)

  function LifeOf(record: Signal): Life {
    Life(record.state, record.entryAt, record.terminalAt, record.terminalReason, record.lastTransitionId)
  }

  function Lives(doc: Document): map<Id, Life> {
    map s | s in doc.signals :: LifeOf(doc.signals[s])
  }

  /** The effect of one legal transition; an illegal one has none. */
  function Replay(lives: map<Id, Life>, t: Transition): Option<map<Id, Life>> {
    match t.operation
    case OpReserve =>
      if t.signalId !in lives && t.fromState == None && t.toState == PublishedPendingEntry then
        Some(lives[t.signalId := Life(PublishedPendingEntry, None, None, None, t.transitionId)])
      else None
    case OpEntry =>
      if t.signalId in lives && lives[t.signalId].state == PublishedPendingEntry
         && t.fromState == Some(PublishedPendingEntry) && t.toState == EntryActive then
        Some(lives[t.signalId := Life(EntryActive, Some(t.occurredAt), None, None, t.transitionId)])
      else None
    case OpTerminal =>
      if t.signalId in lives && t.fromState == Some(lives[t.signalId].state)
         && !lives[t.signalId].state.IsTerminal() && t.toState.IsTerminal()
         && !(lives[t.signalId].state == EntryActive && t.toState == Expired) then
        var entryAt := lives[t.signalId].entryAt;
        Some(lives[t.signalId := Life(t.toState, entryAt, Some(t.occurredAt), t.terminalReason, t.transitionId)])
      else None
  }

  function Fold(log: seq<Transition>): Option<map<Id, Life>>
    decreases |log|
  {
    if log == [] then Some(map[])
    else match Fold(log[..|log| - 1])
         case None => None
         case Some(lives) => Replay(lives, log[|log| - 1])
  }

  // ---------------------------------------------------------------- the invariant

  /** Every transaction is a committed registration, with its reservation in the log. */
  ghost predicate AllRegistered(doc: Document) {
    forall t :: t in doc.transactions ==> RegisteredBy(doc, t)
  }

  ghost predicate RegisteredBy(doc: Document, t: TransactionId)
    requires t in doc.transactions
  {
    var transaction := doc.transactions[t];
    var signalId, rid := transaction.publication.signalId, transaction.reservationTransitionId;
    && t == Derived(transaction.publication)
    && transaction.state == OccupancyCommitted
    && rid in doc.transitions
    && doc.transitions[rid].operation == OpReserve
    && doc.transitions[rid].signalId == signalId
    && doc.transitions[rid].toState == PublishedPendingEntry
    && signalId in doc.signals
    && (doc.signals[signalId].state == PublishedPendingEntry ==> doc.signals[signalId].lastTransitionId == rid)
  }

  ghost predicate FacadeInv(canon: Canon, doc: Document, log: seq<Transition>) {
    Inv(canon, doc) && AllRegistered(doc) && IsLog(doc, log) && Fold(log) == Some(Lives(doc))
  }

  lemma ExtendLog(doc: Document, log: seq<Transition>, next: Document, t: Transition)
    requires IsLog(doc, log)
    requires t.transitionId !in doc.transitions && t.ledgerRevision == doc.revision + 1
    requires next.revision == doc.revision + 1 && next.transitions == doc.transitions[t.transitionId := t]
    ensures IsLog(next, log + [t])
  {
    var longer := log + [t];
    forall i | 0 <= i < |longer|
      ensures longer[i].ledgerRevision == i + 1 && longer[i].transitionId in next.transitions
      ensures next.transitions[longer[i].transitionId] == longer[i]
    {
      if i < |log| { assert longer[i] == log[i]; }
    }
    forall u | u in next.transitions ensures next.transitions[u] in longer {
      if u != t.transitionId { assert next.transitions[u] == doc.transitions[u] && doc.transitions[u] in log; }
    }
  }

  lemma FoldExtend(log: seq<Transition>, t: Transition)
    requires Fold(log).Some?
    ensures Fold(log + [t]) == Replay(Fold(log).value, t)
  {
    assert (log + [t])[..|log|] == log;
  }

  /** `next` is `doc` one revision on, with one more transition that accounts for it. */
  ghost predicate Appends(doc: Document, next: Document, t: Transition) {
    && next.revision == doc.revision + 1
    && t.transitionId !in doc.transitions && t.ledgerRevision == next.revision
    && next.transitions == doc.transitions[t.transitionId := t]
    && Replay(Lives(doc), t) == Some(Lives(next))
    && AllRegistered(next)
  }

  lemma {:induction false} AppendKeeps(canon: Canon, doc: Document, log: seq<Transition>, next: Document, t: Transition)
    requires FacadeInv(canon, doc, log) && Inv(canon, next) && Appends(doc, next, t)
    ensures FacadeInv(canon, next, log + [t])
  {
    ExtendLog(doc, log, next, t);
    FoldExtend(log, t);
  }

  // ---------------------------------------------------------------- one call

  /** In a facade ledger a reservation that passes the pre-check is new, and its transition fresh. */
  lemma PrecheckedReservation(canon: Canon, doc: Document, request: Request)
    requires AllRegistered(doc)
    requires KnownConflict(doc, request.publication, request.transitionId).None?
    ensures !ResumedReservation(canon, doc, ReservationOf(request))
    ensures NewReservation(canon, doc, ReservationOf(request)) ==> request.transitionId !in doc.transitions
  {
  }

  function ReserveTransition(doc: Document, request: Request): Transition {
    Transition(request.transitionId, OpReserve, request.publication.signalId, None, PublishedPendingEntry,
               request.timestamp, None, doc.revision + 1)
  }

  function ReservedLedger(doc: Document, request: Request): Document {
    var call := ReservationOf(request);
    CommitOccupancy(WithCandidate(doc, call), call.transactionId, call.updatedAt)
  }

  lemma NewReservationAppends(canon: Canon, doc: Document, request: Request)
    requires AllRegistered(doc) && NewReservation(canon, doc, ReservationOf(request))
    requires request.transitionId !in doc.transitions
    ensures Appends(doc, Bumped(ReservedLedger(doc, request), request.timestamp), ReserveTransition(doc, request))
  {
    var next := Bumped(ReservedLedger(doc, request), request.timestamp);
    var mine := request.publication.signalId;
    assert Lives(next) == Lives(doc)[mine := Life(PublishedPendingEntry, None, None, None, request.transitionId)];
    forall t | t in next.transactions ensures RegisteredBy(next, t) {
      if t != Derived(request.publication) {
        assert RegisteredBy(doc, t);
        assert doc.transactions[t].publication.signalId != mine;
      }
    }
  }

  lemma MoveAppends(doc: Document, record: Signal, t: Transition, updatedAt: int)
    requires AllRegistered(doc) && t.signalId in doc.signals
    requires t.transitionId !in doc.transitions && t.ledgerRevision == doc.revision + 1
    requires record.state != PublishedPendingEntry
    requires Replay(Lives(doc), t) == Some(Lives(doc)[t.signalId := LifeOf(record)])
    ensures Appends(doc, Bumped(Moved(doc, record, t), updatedAt), t)
  {
    var next := Bumped(Moved(doc, record, t), updatedAt);
    assert Lives(next) == Lives(doc)[t.signalId := LifeOf(record)];
    forall u | u in next.transactions ensures RegisteredBy(next, u) {
      assert RegisteredBy(doc, u);
    }
  }

  lemma EntryAppends(canon: Canon, doc: Document, call: Call)
    requires AllRegistered(doc) && call.Entry? && EntryAdmitted(canon, doc, call)
    requires StateFieldsAgree(doc.signals[call.signalId])
    ensures Appends(doc, Bumped(EntryMove(doc, call), call.updatedAt), EntryTransition(doc, call))
  {
    MoveAppends(doc, Entered(doc.signals[call.signalId], call), EntryTransition(doc, call), call.updatedAt);
  }

  function EndingTransition(doc: Document, call: Call): Transition
    requires call.Terminal? && call.signalId in doc.signals
  {
    TerminalTransition(doc, call, doc.signals[call.signalId].state)
  }

  lemma EndingAppends(doc: Document, call: Call)
    requires AllRegistered(doc) && call.Terminal? && EndingAdmitted(doc, call)
    ensures Appends(doc, Bumped(EndingMove(doc, call), call.updatedAt), EndingTransition(doc, call))
  {
    MoveAppends(doc, Ended(doc.signals[call.signalId], call), EndingTransition(doc, call), call.updatedAt);
  }

  /** No transition is lost or altered. */
  ghost predicate TransitionsKept(doc: Document, next: Document) {
    forall t :: t in doc.transitions ==> t in next.transitions && next.transitions[t] == doc.transitions[t]
  }

  /** Each facade call leaves the ledger as it is, or appends one transition to its log. */
  ghost predicate Logged(canon: Canon, doc: Document, log: seq<Transition>, next: Document, longer: seq<Transition>) {
    && FacadeInv(canon, next, longer)
    && ((next == doc && longer == log) || (|longer| == |log| + 1 && longer[..|log|] == log))
    && TransitionsKept(doc, next)
  }

  lemma {:induction false} AppendLogs(canon: Canon, doc: Document, log: seq<Transition>, next: Document, t: Transition)
    requires FacadeInv(canon, doc, log) && Inv(canon, next) && Appends(doc, next, t)
    ensures Logged(canon, doc, log, next, log + [t])
  {
    AppendKeeps(canon, doc, log, next, t);
    assert (log + [t])[..|log|] == log;
  }

  /** A call that persists `move` appends the transition that accounts for it. */
  lemma {:induction false} AdmittedLogs(canon: Canon, doc: Document, log: seq<Transition>, call: Call, move: Document,
                                        t: Transition)
    requires FacadeInv(canon, doc, log)
    requires Apply(canon, doc, call) == Persisted(canon, move, call.updatedAt)
    requires Appends(doc, Bumped(move, call.updatedAt), t)
    ensures Logged(canon, doc, log, Next(canon, doc, call), log + [t])
  {
    CallKeeps(canon, doc, call);
    AppendLogs(canon, doc, log, Next(canon, doc, call), t);
  }

  lemma UnchangedLogs(canon: Canon, doc: Document, log: seq<Transition>)
    requires FacadeInv(canon, doc, log)
    ensures Logged(canon, doc, log, doc, log)
  {
  }

  lemma PublishLogs(canon: Canon, doc: Document, log: seq<Transition>, request: Request)
    returns (longer: seq<Transition>)
    requires FacadeInv(canon, doc, log)
    ensures Logged(canon, doc, log, FacadeNext(canon, doc, Publish(request)), longer)
  {
    longer := log;
    var call := ReservationOf(request);
    if EvidenceValid(request) && Prechecked(doc, request).None? {
      PrecheckedReservation(canon, doc, request);
      ReserveCases(canon, doc, call);
      if NewReservation(canon, doc, call) {
        NewReservationAppends(canon, doc, request);
        AdmittedLogs(canon, doc, log, call, ReservedLedger(doc, request), ReserveTransition(doc, request));
        longer := log + [ReserveTransition(doc, request)];
      }
    }
  }

  lemma EntryLogs(canon: Canon, doc: Document, log: seq<Transition>, call: Call) returns (longer: seq<Transition>)
    requires FacadeInv(canon, doc, log) && call.Entry?
    ensures Logged(canon, doc, log, Next(canon, doc, call), longer)
  {
    longer := log;
    UnchangedLogs(canon, doc, log);
    EntryCases(canon, doc, call);
    if EntryAdmitted(canon, doc, call) {
      assert ValidSignal(canon, call.signalId, doc.signals[call.signalId]);
      EntryAppends(canon, doc, call);
      AdmittedLogs(canon, doc, log, call, EntryMove(doc, call), EntryTransition(doc, call));
      longer := log + [EntryTransition(doc, call)];
    }
  }

  lemma TerminalLogs(canon: Canon, doc: Document, log: seq<Transition>, call: Call) returns (longer: seq<Transition>)
    requires FacadeInv(canon, doc, log) && call.Terminal?
    ensures Logged(canon, doc, log, Next(canon, doc, call), longer)
  {
    longer := log;
    UnchangedLogs(canon, doc, log);
    TerminalCases(canon, doc, call);
    if EndingAdmitted(doc, call) {
      EndingAppends(doc, call);
      AdmittedLogs(canon, doc, log, call, EndingMove(doc, call), EndingTransition(doc, call));
      longer := log + [EndingTransition(doc, call)];
    }
  }

  lemma CallLogs(canon: Canon, doc: Document, log: seq<Transition>, call: FacadeCall) returns (longer: seq<Transition>)
    requires FacadeInv(canon, doc, log)
    ensures Logged(canon, doc, log, FacadeNext(canon, doc, call), longer)
  {
    match call
    case Publish(request) => longer := PublishLogs(canon, doc, log, request);
    case Lifecycle(inner) =>
      if inner.Entry? { longer := EntryLogs(canon, doc, log, inner); }
      else { longer := TerminalLogs(canon, doc, log, inner); }
  }

  // ---------------------------------------------------------------- whole runs

  lemma EmptyFacadeInv(canon: Canon, createdAt: int)
    ensures FacadeInv(canon, EmptyLedger(createdAt), [])
  {
    EmptyInv(canon, createdAt);
    assert Lives(EmptyLedger(createdAt)) == map[];
  }

  lemma LoggedOnward(canon: Canon, doc: Document, log: seq<Transition>, middle: Document, shorter: seq<Transition>,
                     next: Document, longer: seq<Transition>)
    requires log <= shorter && TransitionsKept(doc, middle) && Logged(canon, middle, shorter, next, longer)
    ensures log <= longer && TransitionsKept(doc, next)
  {
  }

  lemma {:induction false} RunLogs(canon: Canon, doc: Document, log: seq<Transition>, calls: seq<FacadeCall>)
    returns (longer: seq<Transition>)
    requires FacadeInv(canon, doc, log)
    ensures FacadeInv(canon, FacadeRun(canon, doc, calls), longer) && log <= longer
    ensures TransitionsKept(doc, FacadeRun(canon, doc, calls))
  {
    longer := log;
    if calls != [] {
      var middle := FacadeRun(canon, doc, calls[..|calls| - 1]);
      var shorter := RunLogs(canon, doc, log, calls[..|calls| - 1]);
      longer := CallLogs(canon, middle, shorter, calls[|calls| - 1]);
      LoggedOnward(canon, doc, log, middle, shorter, FacadeNext(canon, middle, calls[|calls| - 1]), longer);
    }
  }

  /** Every facade ledger has a log, and replaying it from nothing gives every signal's state,
      its times and its last transition. */
  lemma LogAccountsForRun(canon: Canon, createdAt: int, calls: seq<FacadeCall>) returns (log: seq<Transition>)
    ensures var doc := FacadeRun(canon, EmptyLedger(createdAt), calls);
            FacadeInv(canon, doc, log) && IsLog(doc, log) && Fold(log) == Some(Lives(doc))
  {
    EmptyFacadeInv(canon, createdAt);
    log := RunLogs(canon, EmptyLedger(createdAt), [], calls);
  }

  /** The log is determined by the document. */
  lemma LogUnique(doc: Document, log: seq<Transition>, other: seq<Transition>)
    requires IsLog(doc, log) && IsLog(doc, other)
    ensures log == other
  {
    forall i | 0 <= i < |log| ensures log[i] == other[i] {
      assert doc.transitions[log[i].transitionId] in other;
      var j :| 0 <= j < |other| && other[j] == log[i];
    }
  }

  /** Later calls only add to the transitions, and the log of a run begins with the log of
      every run that it continues. */
  lemma {:induction false} TransitionsOnlyGrow(canon: Canon, createdAt: int, calls: seq<FacadeCall>,
                                               more: seq<FacadeCall>,
                            log: seq<Transition>, longer: seq<Transition>)
    requires var doc := FacadeRun(canon, EmptyLedger(createdAt), calls);
             IsLog(doc, log) && IsLog(FacadeRun(canon, doc, more), longer)
    ensures var doc := FacadeRun(canon, EmptyLedger(createdAt), calls);
            var last := FacadeRun(canon, doc, more);
            TransitionsKept(doc, last) && log <= longer
  {
    var doc := FacadeRun(canon, EmptyLedger(createdAt), calls);
    var mine := LogAccountsForRun(canon, createdAt, calls);
    var theirs := RunLogs(canon, doc, mine, more);
    LogUnique(doc, log, mine);
    LogUnique(FacadeRun(canon, doc, more), longer, theirs);
  }

  /** What a legal log can say of one signal: reserved first and once, entered at most once,
      ended at most once and last, and never expired after an entry. */
  ghost predicate Orderly(log: seq<Transition>) {
    forall i, j :: 0 <= i < j < |log| && log[i].signalId == log[j].signalId ==>
      && log[j].operation != OpReserve
      && log[i].operation != OpTerminal
      && (log[i].operation == OpEntry ==> log[j].operation == OpTerminal && log[j].toState != Expired)
  }

  /** Each signal's life agrees with what the log says of it. */
  ghost predicate Witnessed(log: seq<Transition>, lives: map<Id, Life>) {
    && (forall i :: 0 <= i < |log| ==> log[i].signalId in lives && Stage(log[i].operation, lives[log[i].signalId].state))
    && (forall s :: s in lives ==> exists i :: 0 <= i < |log| && log[i].signalId == s && log[i].operation == OpReserve)
  }

  /** The states a signal can be in once it has made a transition of this kind. */
  predicate Stage(operation: Operation, state: State) {
    match operation
    case OpReserve => true
    case OpEntry => state != PublishedPendingEntry && state != Expired
    case OpTerminal => state.IsTerminal()
  }

  lemma AppendWitnessed(log: seq<Transition>, lives: map<Id, Life>, last: Transition)
    requires Witnessed(log, lives) && Replay(lives, last).Some?
    ensures Witnessed(log + [last], Replay(lives, last).value)
  {
    var longer, after := log + [last], Replay(lives, last).value;
    forall i | 0 <= i < |longer|
      ensures longer[i].signalId in after && Stage(longer[i].operation, after[longer[i].signalId].state)
    {
      if i < |log| { assert longer[i] == log[i]; }
    }
    forall s | s in after
      ensures exists i :: 0 <= i < |longer| && longer[i].signalId == s && longer[i].operation == OpReserve
    {
      if s in lives {
        var i :| 0 <= i < |log| && log[i].signalId == s && log[i].operation == OpReserve;
        assert longer[i] == log[i];
      } else {
        assert longer[|log|].signalId == s;
      }
    }
  }

  lemma AppendOrderly(log: seq<Transition>, lives: map<Id, Life>, last: Transition)
    requires Orderly(log) && Witnessed(log, lives) && Replay(lives, last).Some?
    ensures Orderly(log + [last])
  {
    var longer := log + [last];
    forall i, j | 0 <= i < j < |longer| && longer[i].signalId == longer[j].signalId
      ensures longer[j].operation != OpReserve && longer[i].operation != OpTerminal
      ensures longer[i].operation == OpEntry ==> longer[j].operation == OpTerminal && longer[j].toState != Expired
    {
      assert longer[i] == log[i];
      if j < |log| { assert longer[j] == log[j]; } else { assert longer[j] == last; }
    }
  }

  lemma {:induction false} LegalLogsAreOrderly(log: seq<Transition>)
    requires Fold(log).Some?
    ensures Orderly(log) && Witnessed(log, Fold(log).value)
  {
    if log != [] {
      var before, last := log[..|log| - 1], log[|log| - 1];
      LegalLogsAreOrderly(before);
      AppendWitnessed(before, Fold(before).value, last);
      AppendOrderly(before, Fold(before).value, last);
      assert log == before + [last];
    }
  }

  /** In every facade run each signal is reserved exactly once and before anything else,
      enters at most once, ends at most once and last, and is never expired once entered. */
  lemma LifecyclesAreOrderly(canon: Canon, createdAt: int, calls: seq<FacadeCall>) returns (log: seq<Transition>)
    ensures var doc := FacadeRun(canon, EmptyLedger(createdAt), calls);
            && IsLog(doc, log) && Orderly(log)
            && (forall s :: s in doc.signals ==>
                  exists i :: 0 <= i < |log| && log[i].signalId == s && log[i].operation == OpReserve)
            && (forall i :: 0 <= i < |log| ==>
                  log[i].signalId in doc.signals && Stage(log[i].operation, doc.signals[log[i].signalId].state))
  {
    log := LogAccountsForRun(canon, createdAt, calls);
    LegalLogsAreOrderly(log);
    var doc := FacadeRun(canon, EmptyLedger(createdAt), calls);
    assert forall s :: s in doc.signals <==> s in Lives(doc);
  }
}
