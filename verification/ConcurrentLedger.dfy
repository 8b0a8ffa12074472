/** Any number of processes working on one ledger file: exclusive creation of the lock file,
    re-reading, comparing revisions, mutating, atomic replacement, unlinking, and crashes at
    any point.  A schedule is any sequence of (process, action); an action that is not
    enabled does nothing, so a statement about every schedule is one about every interleaving. */
module ConcurrentLedger {
  import opened Wrappers
  import opened ActiveSignalLedger
  import opened LedgerInvariants
  import opened LedgerStore
  import opened Registration
  import opened FacadeRuns

  datatype Job = Initialize(createdAt: int) | Direct(call: Call) | Publishing(request: Request)

  /** Where a process is.  `before` is what a registration read without the lock. */
  datatype Phase =
    | Idle
    | Wanting(job: Job, before: Option<Document>)
    | Holding(job: Job, before: Option<Document>)
    | Loaded(job: Job, before: Option<Document>, base: Option<Document>)
    | Writing(job: Job, before: Option<Document>, base: Option<Document>, next: Document)
    | Releasing
    | Crashed

  /** The two files, the documents the ledger file has held, and the processes. */
  datatype World = World(
    lockPresent: bool, file: Option<Document>, history: seq<Document>, phases: map<nat, Phase>)

  datatype Action =
    | Begin(job: Job)   // check arguments; a registration also reads, without the lock, and pre-checks
    | Acquire           // the lock file is created exclusively
    | GiveUp            // the attempts run out
    | Load              // re-read under the lock
    | Decide            // apply the call to what was read
    | Replace           // the temporary file replaces the ledger file
    | Abandon           // a rejection, or an error anywhere under the lock
    | Release           // the lock file is unlinked
    | ReleaseFails      // unlinking fails and is ignored
    | Crash
    | Restart

  datatype Step = Step(process: nat, action: Action)

  function PhaseOf(w: World, p: nat): Phase {
    if p in w.phases then w.phases[p] else Idle
  }

  function Enter(w: World, p: nat, phase: Phase): World {
    w.(phases := w.phases[p := phase])
  }

  function CallOf(job: Job): Call
    requires !job.Initialize?
  {
    match job
    case Direct(call) => call
    case Publishing(request) => ReservationOf(request)
  }

  /** The document to write, if the job changes what it read under the lock. */
  function Decision(canon: Canon, job: Job, base: Option<Document>): Option<Document> {
    match job
    case Initialize(createdAt) => if base.None? then Some(EmptyLedger(createdAt)) else None
    case _ =>
      if base.None? || !Valid(canon, base.value) then None
      else match Apply(canon, base.value, CallOf(job))
           case Err(_) => None
           case Ok(next) => if next == base.value then None else Some(next)
  }

  function Started(canon: Canon, w: World, job: Job): Phase {
    match job
    case Initialize(_) => Wanting(job, None)
    case Direct(call) => if ArgumentError(canon, call).Some? then Idle else Wanting(job, None)
    case Publishing(request) =>
      if !EvidenceValid(request) || w.file.None? || !Valid(canon, w.file.value)
         || Prechecked(w.file.value, request).Some? || ArgumentError(canon, ReservationOf(request)).Some?
      then Idle else Wanting(job, w.file)
  }

  function Taken(canon: Canon, w: World, step: Step): World {
    var p, phase := step.process, PhaseOf(w, step.process);
    match step.action
    case Begin(job) => if phase.Idle? then Enter(w, p, Started(canon, w, job)) else w
    case Acquire =>
      if phase.Wanting? && !w.lockPresent then
        Enter(w, p, Holding(phase.job, phase.before)).(lockPresent := true)
      else w
    case GiveUp => if phase.Wanting? then Enter(w, p, Idle) else w
    case Load => if phase.Holding? then Enter(w, p, Loaded(phase.job, phase.before, w.file)) else w
    case Decide =>
      if phase.Loaded? then
        match Decision(canon, phase.job, phase.base)
        case None => Enter(w, p, Releasing)
        case Some(next) => Enter(w, p, Writing(phase.job, phase.before, phase.base, next))
      else w
    case Replace =>
      if phase.Writing? then
        Enter(w, p, Releasing).(file := Some(phase.next), history := w.history + [phase.next])
      else w
    case Abandon => if phase.Holding? || phase.Loaded? || phase.Writing? then Enter(w, p, Releasing) else w
    case Release => if phase.Releasing? then Enter(w, p, Idle).(lockPresent := false) else w
    case ReleaseFails => if phase.Releasing? then Enter(w, p, Idle) else w
    case Crash => Enter(w, p, Crashed)
    case Restart => if phase.Crashed? then Enter(w, p, Idle) else w
  }

  const START := World(false, None, [], map[])

  function After(canon: Canon, w: World, schedule: seq<Step>): World
    decreases |schedule|
  {
    if schedule == [] then w
    else Taken(canon, After(canon, w, schedule[..|schedule| - 1]), schedule[|schedule| - 1])
  }

  // ---------------------------------------------------------------- the invariant

  predicate Critical(phase: Phase) {
    phase.Holding? || phase.Loaded? || phase.Writing? || phase.Releasing?
  }

  /** At most one process is between creating and unlinking the lock file, which is there meanwhile. */
  ghost predicate Exclusive(w: World) {
    && (forall p :: Critical(PhaseOf(w, p)) ==> w.lockPresent)
    && (forall p, q :: Critical(PhaseOf(w, p)) && Critical(PhaseOf(w, q)) ==> p == q)
  }

  ghost predicate Follows(canon: Canon, doc: Document, next: Document) {
    exists call :: Apply(canon, doc, call) == Ok(next)
  }

  /** The documents the file has held: the empty ledger, then one accepted call after another,
      each made of the document before it, with revisions counting from zero. */
  ghost predicate Chain(canon: Canon, history: seq<Document>) {
    && (history != [] ==> history[0] == EmptyLedger(history[0].createdAt))
    && (forall i :: 0 <= i < |history| ==> history[i].revision == i && Inv(canon, history[i]))
    && (forall i :: 0 < i < |history| ==> Follows(canon, history[i - 1], history[i]))
  }

  function Current(history: seq<Document>): Option<Document> {
    if history == [] then None else Some(history[|history| - 1])
  }

  /** A registration under way pre-checked a document that the file has held. */
  ghost predicate Grounded(history: seq<Document>, job: Job, before: Option<Document>) {
    job.Publishing? ==>
      && before.Some? && before.value in history
      && EvidenceValid(job.request) && Prechecked(before.value, job.request).None?
  }

  ghost predicate PhaseInv(canon: Canon, w: World, phase: Phase) {
    match phase
    case Wanting(job, before) => Grounded(w.history, job, before)
    case Holding(job, before) => Grounded(w.history, job, before)
    case Loaded(job, before, base) => Grounded(w.history, job, before) && base == w.file
    case Writing(job, before, base, next) =>
      Grounded(w.history, job, before) && base == w.file && Decision(canon, job, base) == Some(next)
    case _ => true
  }

  ghost predicate WorldInv(canon: Canon, w: World) {
    && Exclusive(w)
    && w.file == Current(w.history)
    && Chain(canon, w.history)
    && forall p :: PhaseInv(canon, w, PhaseOf(w, p))
  }

  lemma StartInv(canon: Canon)
    ensures WorldInv(canon, START)
  {
  }

  lemma {:induction false} DecisionExtends(canon: Canon, history: seq<Document>, job: Job, next: Document)
    requires Chain(canon, history) && Decision(canon, job, Current(history)) == Some(next)
    ensures Chain(canon, history + [next])
  {
    if job.Initialize? { InitializationExtends(canon, history, job.createdAt); }
    else { CallExtends(canon, history, CallOf(job), next); }
  }

  lemma InitializationExtends(canon: Canon, history: seq<Document>, createdAt: int)
    requires history == []
    ensures Chain(canon, history + [EmptyLedger(createdAt)])
  {
    EmptyInv(canon, createdAt);
  }

  lemma CallExtends(canon: Canon, history: seq<Document>, call: Call, next: Document)
    requires Chain(canon, history) && history != []
    requires Apply(canon, history[|history| - 1], call) == Ok(next) && next != history[|history| - 1]
    ensures Chain(canon, history + [next])
  {
    CallKeeps(canon, history[|history| - 1], call);
    assert Follows(canon, history[|history| - 1], next);
    FollowedExtends(canon, history, next);
  }

  lemma FollowedExtends(canon: Canon, history: seq<Document>, next: Document)
    requires Chain(canon, history) && history != [] && Follows(canon, history[|history| - 1], next)
    requires Inv(canon, next) && next.revision == |history|
    ensures Chain(canon, history + [next])
  {
  }

  /** Process `p` may move to `phase`, leaving the lock file as `lockPresent` says. */
  ghost predicate MayMove(canon: Canon, w: World, p: nat, phase: Phase, lockPresent: bool) {
    && PhaseInv(canon, w, phase)
    && (Critical(phase) ==> lockPresent && (Critical(PhaseOf(w, p)) || !w.lockPresent))
    && (w.lockPresent && !lockPresent ==> Critical(PhaseOf(w, p)) && !Critical(phase))
  }

  /** A step that changes neither the file nor the history keeps what the other processes rely on. */
  lemma {:induction false} QuietStep(canon: Canon, w: World, p: nat, phase: Phase, lockPresent: bool)
    requires WorldInv(canon, w) && MayMove(canon, w, p, phase, lockPresent)
    ensures WorldInv(canon, Enter(w, p, phase).(lockPresent := lockPresent))
  {
    var next := Enter(w, p, phase).(lockPresent := lockPresent);
    assert forall q :: q != p ==> PhaseOf(next, q) == PhaseOf(w, q);
    assert PhaseOf(next, p) == phase;
    forall q ensures PhaseInv(canon, next, PhaseOf(next, q)) {
      assert PhaseInv(canon, w, PhaseOf(next, q));
    }
  }

  /** Every step but a replacement is such a step. */
  lemma OtherActions(canon: Canon, w: World, step: Step)
    requires !step.action.Replace? && w.file == Current(w.history)
    requires PhaseInv(canon, w, PhaseOf(w, step.process))
    requires Critical(PhaseOf(w, step.process)) ==> w.lockPresent
    ensures var next := Taken(canon, w, step);
            next == w || (var phase := PhaseOf(next, step.process);
                          && next == Enter(w, step.process, phase).(lockPresent := next.lockPresent)
                          && MayMove(canon, w, step.process, phase, next.lockPresent))
  {
  }

  /** What a process relies on outside its critical section survives a replacement. */
  lemma OutsidersStay(canon: Canon, w: World, next: World, phase: Phase)
    requires PhaseInv(canon, w, phase) && !Critical(phase)
    requires |next.history| == |w.history| + 1 && w.history <= next.history
    ensures PhaseInv(canon, next, phase)
  {
    assert next.history[..|w.history|] == w.history;
    if phase.Wanting? && phase.before.Some? && phase.before.value in w.history {
      var i :| 0 <= i < |w.history| && w.history[i] == phase.before.value;
      assert next.history[i] == phase.before.value;
    }
  }

  /** `next` is `w` but for process `p`, which has left its critical phase for the release. */
  ghost predicate Replaced(w: World, next: World, p: nat) {
    && next.lockPresent == w.lockPresent && Critical(PhaseOf(w, p)) && PhaseOf(next, p) == Releasing
    && forall q :: q != p ==> PhaseOf(next, q) == PhaseOf(w, q)
  }

  lemma ReplacedExclusive(w: World, next: World, p: nat)
    requires Exclusive(w) && Replaced(w, next, p)
    ensures Exclusive(next)
  {
    forall q ensures Critical(PhaseOf(next, q)) == Critical(PhaseOf(w, q)) {}
  }

  lemma ReplacedPhases(canon: Canon, w: World, next: World, p: nat)
    requires Exclusive(w) && Replaced(w, next, p) && forall q :: PhaseInv(canon, w, PhaseOf(w, q))
    requires |next.history| == |w.history| + 1 && w.history <= next.history
    ensures forall q :: PhaseInv(canon, next, PhaseOf(next, q))
  {
    forall q ensures PhaseInv(canon, next, PhaseOf(next, q)) {
      if q != p {
        assert !Critical(PhaseOf(w, q));
        OutsidersStay(canon, w, next, PhaseOf(w, q));
      }
    }
  }

  /** The world once process `p` has replaced the file by `doc`. */
  function WithFile(w: World, p: nat, doc: Document): World {
    Enter(w, p, Releasing).(file := Some(doc), history := w.history + [doc])
  }

  lemma WithFileKeeps(canon: Canon, w: World, p: nat, doc: Document)
    requires WorldInv(canon, w) && Critical(PhaseOf(w, p)) && Chain(canon, w.history + [doc])
    ensures WorldInv(canon, WithFile(w, p, doc))
  {
    var next := WithFile(w, p, doc);
    ReplacedExclusive(w, next, p);
    ReplacedPhases(canon, w, next, p);
    assert Current(next.history) == Some(doc);
  }

  lemma {:induction false} WritingExtends(canon: Canon, w: World, phase: Phase)
    requires Chain(canon, w.history) && w.file == Current(w.history) && phase.Writing? && PhaseInv(canon, w, phase)
    ensures Chain(canon, w.history + [phase.next])
  {
    DecisionExtends(canon, w.history, phase.job, phase.next);
  }

  lemma {:induction false} ReplaceStep(canon: Canon, w: World, p: nat)
    requires WorldInv(canon, w) && PhaseOf(w, p).Writing?
    ensures WorldInv(canon, WithFile(w, p, PhaseOf(w, p).next))
  {
    WritingExtends(canon, w, PhaseOf(w, p));
    WithFileKeeps(canon, w, p, PhaseOf(w, p).next);
  }

  lemma OtherStep(canon: Canon, w: World, step: Step)
    requires WorldInv(canon, w) && !step.action.Replace?
    ensures WorldInv(canon, Taken(canon, w, step))
  {
    var p, next := step.process, Taken(canon, w, step);
    assert PhaseInv(canon, w, PhaseOf(w, p));
    OtherActions(canon, w, step);
    if next != w { QuietStep(canon, w, p, PhaseOf(next, p), next.lockPresent); }
  }

  lemma {:induction false} StepKeeps(canon: Canon, w: World, step: Step)
    requires WorldInv(canon, w)
    ensures WorldInv(canon, Taken(canon, w, step))
  {
    if !step.action.Replace? { OtherStep(canon, w, step); }
    else if PhaseOf(w, step.process).Writing? { ReplaceStep(canon, w, step.process); }
  }

  lemma {:induction false} ScheduleKeeps(canon: Canon, w: World, schedule: seq<Step>)
    requires WorldInv(canon, w)
    ensures WorldInv(canon, After(canon, w, schedule))
  {
    if schedule != [] {
      ScheduleKeeps(canon, w, schedule[..|schedule| - 1]);
      StepKeeps(canon, After(canon, w, schedule[..|schedule| - 1]), schedule[|schedule| - 1]);
    }
  }

  // ---------------------------------------------------------------- main results

  lemma {:induction false} ReachableWorldInv(canon: Canon, schedule: seq<Step>)
    ensures WorldInv(canon, After(canon, START, schedule))
  {
    StartInv(canon);
    ScheduleKeeps(canon, START, schedule);
  }

  /** Under every schedule, crashes included, at most one process holds the lock; no update is
      lost, for each document is an accepted call's result on the very document before it;
      and a revision names one document. */
  lemma ExclusionAndNoLostUpdate(canon: Canon, schedule: seq<Step>)
    ensures var w := After(canon, START, schedule);
            && (forall p, q :: Critical(PhaseOf(w, p)) && Critical(PhaseOf(w, q)) ==> p == q)
            && w.file == Current(w.history)
            && (forall i :: 0 <= i < |w.history| ==> w.history[i].revision == i)
            && (forall i :: 0 < i < |w.history| ==> Follows(canon, w.history[i - 1], w.history[i]))
            && (forall a, b :: a in w.history && b in w.history && a.revision == b.revision ==> a == b)
  {
    ReachableWorldInv(canon, schedule);
  }

  /** And it is the writer's own call: a process about to write has the result of its job on the
      document that is in the file now, and writing puts exactly that result there. */
  lemma EachWriteIsItsOwnCall(canon: Canon, schedule: seq<Step>, p: nat)
    requires PhaseOf(After(canon, START, schedule), p).Writing?
    ensures var w := After(canon, START, schedule);
            var phase := PhaseOf(w, p);
            if phase.job.Initialize? then w.file == None && phase.next == EmptyLedger(phase.job.createdAt)
            else
              && w.file.Some? && phase.next != w.file.value
              && Apply(canon, w.file.value, CallOf(phase.job)) == Ok(phase.next)
    ensures var w := After(canon, START, schedule);
            var next := After(canon, START, schedule + [Step(p, Replace)]);
            next.file == Some(PhaseOf(w, p).next) && next.history == w.history + [PhaseOf(w, p).next]
  {
    var w := After(canon, START, schedule);
    ReachableWorldInv(canon, schedule);
    assert PhaseInv(canon, w, PhaseOf(w, p));
    assert (schedule + [Step(p, Replace)])[..|schedule|] == schedule;
  }

  /** What has been written stays written: later schedules only extend the history. */
  lemma {:induction false} HistoryOnlyGrows(canon: Canon, w: World, schedule: seq<Step>)
    ensures w.history <= After(canon, w, schedule).history
  {
    if schedule != [] {
      HistoryOnlyGrows(canon, w, schedule[..|schedule| - 1]);
      HistoryStep(canon, After(canon, w, schedule[..|schedule| - 1]), schedule[|schedule| - 1]);
    }
  }

  /** A lock left behind by a crash is never taken away: nothing is ever written again. */
  lemma {:induction false} StaleLockFreezes(canon: Canon, w: World, schedule: seq<Step>)
    requires w.lockPresent && forall p :: !Critical(PhaseOf(w, p))
    ensures var later := After(canon, w, schedule);
            later.lockPresent && later.history == w.history && later.file == w.file
            && forall p :: !Critical(PhaseOf(later, p))
  {
    if schedule != [] {
      StaleLockFreezes(canon, w, schedule[..|schedule| - 1]);
      FrozenStep(canon, After(canon, w, schedule[..|schedule| - 1]), schedule[|schedule| - 1]);
    }
  }

  lemma FrozenStep(canon: Canon, w: World, step: Step)
    requires w.lockPresent && forall p :: !Critical(PhaseOf(w, p))
    ensures var next := Taken(canon, w, step);
            next.lockPresent && next.history == w.history && next.file == w.file
            && forall p :: !Critical(PhaseOf(next, p))
  {
    var next := Taken(canon, w, step);
    assert !Critical(PhaseOf(w, step.process));
    assert forall q :: q != step.process ==> PhaseOf(next, q) == PhaseOf(w, q);
  }

  /** The compare-and-swap makes an unlocked pre-check good: when a registration is about to
      write a transaction that the ledger did not have, the document it read without the lock
      is the one it replaces, so the pre-check holds of that one too. */
  lemma {:induction false} PrecheckHoldsAtCommit(canon: Canon, schedule: seq<Step>, p: nat)
    requires var phase := PhaseOf(After(canon, START, schedule), p);
             phase.Writing? && phase.job.Publishing?
    ensures var w := After(canon, START, schedule);
            var phase := PhaseOf(w, p);
            && phase.base == w.file && w.file.Some?
            && (Derived(phase.job.request.publication) !in w.file.value.transactions ==>
                  phase.before == w.file && Prechecked(w.file.value, phase.job.request).None?)
  {
    var w := After(canon, START, schedule);
    ReachableWorldInv(canon, schedule);
    assert PhaseInv(canon, w, PhaseOf(w, p));
    NewReservationReadCurrent(canon, w, PhaseOf(w, p));
  }

  lemma {:induction false} NewReservationReadCurrent(canon: Canon, w: World, phase: Phase)
    requires w.file == Current(w.history) && Chain(canon, w.history)
    requires phase.Writing? && phase.job.Publishing? && PhaseInv(canon, w, phase)
    ensures w.file.Some?
    ensures Derived(phase.job.request.publication) !in w.file.value.transactions ==>
              phase.before == w.file && Prechecked(w.file.value, phase.job.request).None?
  {
    var base, request := phase.base.value, phase.job.request;
    ReserveCases(canon, base, ReservationOf(request));
    assert phase.before.value.revision == request.expectedRevision;
  }

  // ---------------------------------------------------------------- facade processes

  predicate FacadeJob(job: Job) {
    job.Direct? ==> job.call.Entry? || job.call.Terminal?
  }

  predicate FacadeSchedule(schedule: seq<Step>) {
    forall i :: 0 <= i < |schedule| && schedule[i].action.Begin? ==> FacadeJob(schedule[i].action.job)
  }

  predicate FacadePhase(phase: Phase) {
    phase.Wanting? || phase.Holding? || phase.Loaded? || phase.Writing? ==> FacadeJob(phase.job)
  }

  /** The history is one facade call after another. */
  ghost predicate FacadeChain(canon: Canon, history: seq<Document>) {
    forall i :: 0 < i < |history| ==> FacadeFollows(canon, history[i - 1], history[i])
  }

  ghost predicate FacadeFollows(canon: Canon, doc: Document, next: Document) {
    exists call :: FacadeNext(canon, doc, call) == next
  }

  /** Every document of such a history is the result of a sequential facade run. */
  lemma {:induction false} ChainIsRun(canon: Canon, history: seq<Document>, i: nat) returns (calls: seq<FacadeCall>)
    requires i < |history| && Chain(canon, history) && FacadeChain(canon, history)
    ensures FacadeRun(canon, EmptyLedger(history[0].createdAt), calls) == history[i]
  {
    calls := [];
    if i > 0 {
      var earlier := ChainIsRun(canon, history, i - 1);
      var call :| FacadeNext(canon, history[i - 1], call) == history[i];
      calls := earlier + [call];
      assert calls[..|calls| - 1] == earlier;
    }
  }

  /** What a facade process writes is the facade's own next document. */
  lemma {:induction false} FacadeWrites(canon: Canon, w: World, phase: Phase)
    requires w.file == Current(w.history) && Chain(canon, w.history) && FacadeChain(canon, w.history)
    requires phase.Writing? && PhaseInv(canon, w, phase) && FacadeJob(phase.job) && w.history != []
    ensures FacadeFollows(canon, w.history[|w.history| - 1], phase.next)
  {
    match phase.job
    case Initialize(_) =>
    case Direct(call) => LifecycleWrites(canon, w.file.value, call, phase.next);
    case Publishing(request) =>
      ChainRegistered(canon, w.history, |w.history| - 1);
      SettledReservation(canon, w.file.value, request, phase.next);
      NewReservationReadCurrent(canon, w, phase);
      PublishWrites(canon, w.file.value, request, phase.next);
  }

  lemma {:induction false} ChainRegistered(canon: Canon, history: seq<Document>, i: nat)
    requires i < |history| && Chain(canon, history) && FacadeChain(canon, history)
    ensures AllRegistered(history[i])
  {
    var calls := ChainIsRun(canon, history, i);
    var log := LogAccountsForRun(canon, history[0].createdAt, calls);
  }

  lemma {:induction false} LifecycleWrites(canon: Canon, doc: Document, call: Call, next: Document)
    requires (call.Entry? || call.Terminal?) && Decision(canon, Direct(call), Some(doc)) == Some(next)
    ensures FacadeFollows(canon, doc, next)
  {
    assert FacadeNext(canon, doc, Lifecycle(call)) == next;
  }

  lemma {:induction false} PublishWrites(canon: Canon, doc: Document, request: Request, next: Document)
    requires Decision(canon, Publishing(request), Some(doc)) == Some(next)
    requires EvidenceValid(request) && Prechecked(doc, request).None?
    ensures FacadeFollows(canon, doc, next)
  {
    assert FacadeNext(canon, doc, Publish(request)) == next;
  }

  /** With nothing prepared, a reservation that writes is a new one. */
  lemma {:induction false} SettledReservation(canon: Canon, doc: Document, request: Request, next: Document)
    requires AllRegistered(doc) && Decision(canon, Publishing(request), Some(doc)) == Some(next)
    ensures Derived(request.publication) !in doc.transactions
  {
    ReserveCases(canon, doc, ReservationOf(request));
    forall t | t in doc.transactions ensures doc.transactions[t].state == OccupancyCommitted {
      assert RegisteredBy(doc, t);
    }
  }

  lemma {:induction false} FacadeScheduleKeeps(canon: Canon, schedule: seq<Step>)
    requires FacadeSchedule(schedule)
    ensures var w := After(canon, START, schedule);
            WorldInv(canon, w) && FacadeChain(canon, w.history) && forall p :: FacadePhase(PhaseOf(w, p))
  {
    ReachableWorldInv(canon, schedule);
    if schedule != [] {
      var earlier, step := schedule[..|schedule| - 1], schedule[|schedule| - 1];
      FacadeScheduleKeeps(canon, earlier);
      var w := After(canon, START, earlier);
      assert PhaseInv(canon, w, PhaseOf(w, step.process)) && FacadePhase(PhaseOf(w, step.process));
      FacadeStep(canon, w, step);
      FacadePhases(canon, After(canon, START, earlier), step);
    }
  }

  lemma FacadePhases(canon: Canon, w: World, step: Step)
    requires forall p :: FacadePhase(PhaseOf(w, p))
    requires step.action.Begin? ==> FacadeJob(step.action.job)
    ensures forall p :: FacadePhase(PhaseOf(Taken(canon, w, step), p))
  {
    var next := Taken(canon, w, step);
    assert FacadePhase(PhaseOf(w, step.process));
    assert forall q :: q != step.process ==> PhaseOf(next, q) == PhaseOf(w, q);
  }

  lemma HistoryStep(canon: Canon, w: World, step: Step)
    ensures var phase := PhaseOf(w, step.process);
            Taken(canon, w, step).history
            == if step.action.Replace? && phase.Writing? then w.history + [phase.next] else w.history
  {
  }

  lemma {:induction false} FacadeStep(canon: Canon, w: World, step: Step)
    requires w.file == Current(w.history) && Chain(canon, w.history) && FacadeChain(canon, w.history)
    requires PhaseInv(canon, w, PhaseOf(w, step.process)) && FacadePhase(PhaseOf(w, step.process))
    ensures FacadeChain(canon, Taken(canon, w, step).history)
  {
    HistoryStep(canon, w, step);
    var phase := PhaseOf(w, step.process);
    if step.action.Replace? && phase.Writing? {
      if w.history != [] { FacadeWrites(canon, w, phase); }
      ChainExtends(canon, w.history, phase.next);
    }
  }

  lemma ChainExtends(canon: Canon, history: seq<Document>, next: Document)
    requires FacadeChain(canon, history)
    requires history != [] ==> FacadeFollows(canon, history[|history| - 1], next)
    ensures FacadeChain(canon, history + [next])
  {
    forall i | 0 < i < |history| + 1
      ensures FacadeFollows(canon, (history + [next])[i - 1], (history + [next])[i])
    {
      if i < |history| { assert FacadeFollows(canon, history[i - 1], history[i]); }
    }
  }

  /** Concurrent facade processes, however interleaved and wherever they crash, leave exactly
      what some sequential facade run leaves; so every fact about facade runs holds of them. */
  lemma {:induction false} ConcurrentFacadeIsSequential(canon: Canon, schedule: seq<Step>, i: nat)
    returns (createdAt: int, calls: seq<FacadeCall>)
    requires FacadeSchedule(schedule) && i < |After(canon, START, schedule).history|
    ensures FacadeRun(canon, EmptyLedger(createdAt), calls) == After(canon, START, schedule).history[i]
  {
    var w := After(canon, START, schedule);
    FacadeScheduleKeeps(canon, schedule);
    createdAt := w.history[0].createdAt;
    calls := ChainIsRun(canon, w.history, i);
  }
}
