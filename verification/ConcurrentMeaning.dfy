/** What single calls and single steps do to the two files: a call against the file as it is found,
    what may change the files at all, and that a process left alone does its whole job. */
module ConcurrentMeaning {
  import opened Wrappers
  import opened ActiveSignalLedger
  import opened LedgerInvariants
  import opened LedgerMeaning
  import opened LedgerStore
  import opened Registration
  import opened ConcurrentLedger

  // ---------------------------------------------------------------- a call against the file

  /** Something is wrong with the call whatever the ledger holds. */
  ghost predicate IllFormed(canon: Canon, call: Call) {
    match call
    case Reserve(_, _, _, _, _, _) => !NamesAll(canon, call)
    case Entry(_, _, _, _, _, _) => false
    case Terminal(_, _, _, _, _, _, _, _) => !EndsLife(call.terminalState) || call.reason == Blank
    case Reconcile(_, _, _, _, _, _, _, _) => call.transactionId == Given(Blank)
  }

  /** A call does its work on a sound ledger whose lock is free; otherwise it is refused, a call that
      is ill-formed in the same words as ever, and any other for the lock or for the file. */
  lemma {:induction false} CallOnFileMeans(canon: Canon, file: Option<Document>, lockPresent: bool, call: Call)
    ensures var sound := file != None && SoundSignals(canon, file.value.signals) && SlotsHeld(file.value.signals)
                         && SoundLogs(file.value);
            && (sound && !lockPresent ==> Called(canon, file, lockPresent, call) == Apply(canon, file.value, call))
            && (!sound || lockPresent ==> Called(canon, file, lockPresent, call).Err?)
            && (!IllFormed(canon, call) && lockPresent ==>
                  Called(canon, file, lockPresent, call) == Err(LockAcquisitionFailed))
            && (!IllFormed(canon, call) && !lockPresent && !sound ==>
                  Called(canon, file, lockPresent, call) == Err(if file == None then LedgerNotFound else LedgerCorrupt))
  {
    ArgumentsMean(canon, call);
    if file != None {
      ValidMeans(canon, file.value);
      ArgumentsRefused(canon, file.value, call);
    }
  }

  lemma ArgumentsMean(canon: Canon, call: Call)
    ensures IllFormed(canon, call) <==> ArgumentError(canon, call) != None
  {
  }

  lemma ArgumentsRefused(canon: Canon, doc: Document, call: Call)
    ensures ArgumentError(canon, call) != None ==> Apply(canon, doc, call) == Err(ArgumentError(canon, call).value)
  {
  }

  // ---------------------------------------------------------------- what a step may change

  /** The step changes no other process's phase; the lock file comes only where there was none, by a
      process that wanted it, and goes only when the process that holds it unlinks it; the ledger file
      changes only while its writer holds the lock and the file is what the writer read, to what the
      writer made of it. */
  ghost predicate ChangesOnlyItsOwn(w: World, step: Step, next: World) {
    var p, phase := step.process, PhaseOf(w, step.process);
    && (forall q :: q != p ==> PhaseOf(next, q) == PhaseOf(w, q))
    && (!w.lockPresent && next.lockPresent ==> step.action.Acquire? && phase.Wanting? && PhaseOf(next, p).Holding?)
    && (w.lockPresent && !next.lockPresent ==> step.action.Release? && phase.Releasing?)
    && (next.file != w.file || next.history != w.history ==>
          && step.action.Replace? && phase.Writing? && w.lockPresent && phase.base == w.file
          && next.file == Some(phase.next) && next.history == w.history + [phase.next])
  }

  lemma StepChanges(canon: Canon, w: World, step: Step)
    requires var phase := PhaseOf(w, step.process); phase.Writing? ==> w.lockPresent && phase.base == w.file
    ensures ChangesOnlyItsOwn(w, step, Taken(canon, w, step))
  {
  }

  lemma WriterHolds(canon: Canon, w: World, p: nat)
    requires Exclusive(w) && PhaseInv(canon, w, PhaseOf(w, p)) && PhaseOf(w, p).Writing?
    ensures w.lockPresent && PhaseOf(w, p).base == w.file
  {
    assert Critical(PhaseOf(w, p));
  }

  /** So it is with every step in every reachable world. */
  lemma {:induction false} StepsMean(canon: Canon, schedule: seq<Step>, step: Step)
    ensures ChangesOnlyItsOwn(After(canon, World(false, None, [], map[]), schedule), step,
                              After(canon, World(false, None, [], map[]), schedule + [step]))
  {
    var w := After(canon, START, schedule);
    ReachableWorldInv(canon, schedule);
    assert PhaseInv(canon, w, PhaseOf(w, step.process));
    if PhaseOf(w, step.process).Writing? { WriterHolds(canon, w, step.process); }
    StepChanges(canon, w, step);
    OneMoreStep(canon, START, schedule, step);
  }

  // ---------------------------------------------------------------- a process left alone

  /** What is in the file once the job is done, with no other process about. */
  function Done(canon: Canon, file: Option<Document>, job: Job): Option<Document> {
    match job
    case Initialize(createdAt) =>
      if file == None then Some(Document(0, createdAt, createdAt, map[], map[], map[])) else file
    case Direct(call) =>
      if file != None && Valid(canon, file.value) then Some(Next(canon, file.value, call)) else file
    case Publishing(request) =>
      if file != None && Valid(canon, file.value) then Some(Register(canon, file.value, request).1) else file
  }

  function Alone(p: nat, job: Job): seq<Step> {
    [Step(p, Begin(job)), Step(p, Acquire), Step(p, Load), Step(p, Decide), Step(p, Replace), Step(p, Release)]
  }

  lemma OneMoreStep(canon: Canon, w: World, schedule: seq<Step>, step: Step)
    ensures After(canon, w, schedule + [step]) == Taken(canon, After(canon, w, schedule), step)
  {
    assert (schedule + [step])[..|schedule|] == schedule;
  }

  lemma AloneInTurn(canon: Canon, w: World, p: nat, job: Job)
    ensures var begun := Taken(canon, w, Step(p, Begin(job)));
            var loaded := Taken(canon, Taken(canon, begun, Step(p, Acquire)), Step(p, Load));
            var replaced := Taken(canon, Taken(canon, loaded, Step(p, Decide)), Step(p, Replace));
            After(canon, w, Alone(p, job)) == Taken(canon, replaced, Step(p, Release))
  {
    var steps := Alone(p, job);
    OneMoreStep(canon, w, [], steps[0]);
    OneMoreStep(canon, w, steps[..1], steps[1]);
    OneMoreStep(canon, w, steps[..2], steps[2]);
    OneMoreStep(canon, w, steps[..3], steps[3]);
    OneMoreStep(canon, w, steps[..4], steps[4]);
    OneMoreStep(canon, w, steps[..5], steps[5]);
    assert steps[..1] == [] + [steps[0]] && steps[..2] == steps[..1] + [steps[1]] && steps[..3] == steps[..2] + [steps[2]];
    assert steps[..4] == steps[..3] + [steps[3]] && steps[..5] == steps[..4] + [steps[4]];
    assert steps == steps[..5] + [steps[5]];
  }

  lemma NotStartedMeans(canon: Canon, w: World, job: Job)
    requires Started(canon, w, job).Idle?
    ensures Done(canon, w.file, job) == w.file
  {
    if job.Direct? && w.file != None { ArgumentsRefused(canon, w.file.value, job.call); }
    if job.Publishing? && w.file != None { ArgumentsRefused(canon, w.file.value, ReservationOf(job.request)); }
  }

  lemma DecisionMeans(canon: Canon, w: World, job: Job)
    requires Started(canon, w, job).Wanting?
    ensures Started(canon, w, job).job == job
    ensures Decision(canon, job, w.file) == None ==> Done(canon, w.file, job) == w.file
    ensures Decision(canon, job, w.file) != None ==>
              Done(canon, w.file, job) == Decision(canon, job, w.file) && Decision(canon, job, w.file) != w.file
  {
  }

  lemma LoadedWorld(canon: Canon, w: World, p: nat, job: Job)
    requires !w.lockPresent && PhaseOf(w, p) == Idle && Started(canon, w, job).Wanting?
    ensures var started := Started(canon, w, job);
            Taken(canon, Taken(canon, Taken(canon, w, Step(p, Begin(job))), Step(p, Acquire)), Step(p, Load))
            == Enter(w, p, Loaded(started.job, started.before, w.file)).(lockPresent := true)
  {
    var started := Started(canon, w, job);
    var begun := Taken(canon, w, Step(p, Begin(job)));
    EntersAgain(w, p, started, Holding(started.job, started.before));
    EntersAgain(w, p, Holding(started.job, started.before), Loaded(started.job, started.before, w.file));
    assert Taken(canon, begun, Step(p, Acquire)) == Enter(w, p, Holding(started.job, started.before)).(lockPresent := true);
  }

  lemma EntersAgain(w: World, p: nat, a: Phase, b: Phase)
    ensures w.phases[p := a][p := b] == w.phases[p := b]
  {
  }

  lemma FinishedWorld(canon: Canon, w: World, p: nat, job: Job, before: Option<Document>)
    requires w.lockPresent && PhaseOf(w, p) == Loaded(job, before, w.file)
    ensures var last := Taken(canon, Taken(canon, Taken(canon, w, Step(p, Decide)), Step(p, Replace)), Step(p, Release));
            && !last.lockPresent && PhaseOf(last, p) == Idle
            && last.file == (if Decision(canon, job, w.file) == None then w.file else Decision(canon, job, w.file))
            && last.history == (if Decision(canon, job, w.file) == None then w.history
                                else w.history + [Decision(canon, job, w.file).value])
  {
    var decided := Taken(canon, w, Step(p, Decide));
    if Decision(canon, job, w.file) == None { FinishedEmptyHanded(canon, decided, p); }
    else { FinishedWriting(canon, decided, p); }
  }

  lemma FinishedEmptyHanded(canon: Canon, w: World, p: nat)
    requires PhaseOf(w, p).Releasing?
    ensures var last := Taken(canon, Taken(canon, w, Step(p, Replace)), Step(p, Release));
            !last.lockPresent && PhaseOf(last, p) == Idle && last.file == w.file && last.history == w.history
  {
  }

  lemma FinishedWriting(canon: Canon, w: World, p: nat)
    requires PhaseOf(w, p).Writing?
    ensures var last := Taken(canon, Taken(canon, w, Step(p, Replace)), Step(p, Release));
            && !last.lockPresent && PhaseOf(last, p) == Idle && last.file == Some(PhaseOf(w, p).next)
            && last.history == w.history + [PhaseOf(w, p).next]
  {
  }

  lemma NothingBegun(canon: Canon, w: World, p: nat, job: Job)
    requires !w.lockPresent && PhaseOf(w, p) == Idle && Started(canon, w, job).Idle?
    ensures var begun := Taken(canon, w, Step(p, Begin(job)));
            var loaded := Taken(canon, Taken(canon, begun, Step(p, Acquire)), Step(p, Load));
            var last := Taken(canon, Taken(canon, Taken(canon, loaded, Step(p, Decide)), Step(p, Replace)), Step(p, Release));
            !last.lockPresent && PhaseOf(last, p) == Idle && last.file == w.file && last.history == w.history
  {
  }

  /** A process that is left alone with a free lock does its whole job and gives the lock back: the
      file holds what the sequential call, registration or initialization makes of it. */
  lemma {:induction false} AloneDoesItsJob(canon: Canon, w: World, p: nat, job: Job)
    requires !w.lockPresent && PhaseOf(w, p) == Idle
    ensures var next := After(canon, w, Alone(p, job));
            && !next.lockPresent && PhaseOf(next, p) == Idle
            && next.file == Done(canon, w.file, job)
            && next.history == (if next.file == w.file then w.history else w.history + [next.file.value])
  {
    AloneInTurn(canon, w, p, job);
    if Started(canon, w, job).Idle? {
      NotStartedMeans(canon, w, job);
      NothingBegun(canon, w, p, job);
    } else {
      DecisionMeans(canon, w, job);
      LoadedWorld(canon, w, p, job);
      var before := Started(canon, w, job).before;
      FinishedWorld(canon, Enter(w, p, Loaded(job, before, w.file)).(lockPresent := true), p, job, before);
    }
  }

  // ---------------------------------------------------------------- mishaps

  /** A crash anywhere between creating and unlinking the lock file leaves it there, and then nothing
      is ever written again; so does an unlinking that fails. */
  lemma {:induction false} MishapsFreeze(canon: Canon, schedule: seq<Step>, p: nat, mishap: Action, later: seq<Step>)
    requires var phase := PhaseOf(After(canon, START, schedule), p);
             || (mishap == Crash && (phase.Holding? || phase.Loaded? || phase.Writing? || phase.Releasing?))
             || (mishap == ReleaseFails && phase.Releasing?)
    ensures var w := After(canon, START, schedule);
            var last := After(canon, After(canon, START, schedule + [Step(p, mishap)]), later);
            last.lockPresent && last.file == w.file && last.history == w.history
  {
    var w := After(canon, START, schedule);
    ReachableWorldInv(canon, schedule);
    OneMoreStep(canon, START, schedule, Step(p, mishap));
    MishapLeavesLock(canon, w, p, mishap);
    StaleLockFreezes(canon, Taken(canon, w, Step(p, mishap)), later);
  }

  lemma MishapLeavesLock(canon: Canon, w: World, p: nat, mishap: Action)
    requires Exclusive(w) && Critical(PhaseOf(w, p))
    requires mishap == Crash || (mishap == ReleaseFails && PhaseOf(w, p).Releasing?)
    ensures var next := Taken(canon, w, Step(p, mishap));
            && next.lockPresent && next.file == w.file && next.history == w.history
            && forall q :: !Critical(PhaseOf(next, q))
  {
    var next := Taken(canon, w, Step(p, mishap));
    assert forall q :: q != p ==> PhaseOf(next, q) == PhaseOf(w, q) && !Critical(PhaseOf(w, q));
  }

  /** What else may go wrong costs only the job: a process that gives up waiting, one that is rejected
      under the lock and unlinks it, and one that crashes outside the lock and is restarted, end up
      idle and leave the file as it was; the lock is free after it was held, and else as it was. */
  lemma {:induction false} MishapsElsewhereAreHarmless(canon: Canon, w: World, p: nat)
    ensures PhaseOf(w, p).Wanting? ==> Unharmed(w, p, After(canon, w, [Step(p, GiveUp)]), w.lockPresent)
    ensures PhaseOf(w, p).Holding? || PhaseOf(w, p).Loaded? || PhaseOf(w, p).Writing? ==>
              Unharmed(w, p, After(canon, w, [Step(p, Abandon), Step(p, Release)]), false)
    ensures PhaseOf(w, p).Idle? || PhaseOf(w, p).Wanting? || PhaseOf(w, p).Crashed? ==>
              Unharmed(w, p, After(canon, w, [Step(p, Crash), Step(p, Restart)]), w.lockPresent)
  {
    OneMoreStep(canon, w, [], Step(p, GiveUp));
    TwoSteps(canon, w, Step(p, Abandon), Step(p, Release));
    TwoSteps(canon, w, Step(p, Crash), Step(p, Restart));
    assert [] + [Step(p, GiveUp)] == [Step(p, GiveUp)];
  }

  ghost predicate Unharmed(w: World, p: nat, next: World, lockPresent: bool) {
    PhaseOf(next, p) == Idle && next.file == w.file && next.history == w.history && next.lockPresent == lockPresent
  }

  lemma TwoSteps(canon: Canon, w: World, one: Step, two: Step)
    ensures After(canon, w, [one, two]) == Taken(canon, Taken(canon, w, one), two)
  {
    OneMoreStep(canon, w, [], one);
    OneMoreStep(canon, w, [one], two);
    assert [] + [one] == [one] && [one] + [two] == [one, two];
  }
}
