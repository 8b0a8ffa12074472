/** What the budget ledger's invariant amounts to: the partition of its reservations, the three
    ways its exposure adds up, the count of its steps, and the finality of a stop. */
module BudgetProperties {
  import opened Wrappers
  import opened BudgetControl
  import opened BudgetInvariants

  // ---------------------------------------------------------------- partition

  predicate IsUsed(ledger: Ledger, reservation: Reservation) {
    reservation.reservationId in ResolvedIds(ledger.usages)
  }

  predicate IsReleased(ledger: Ledger, reservation: Reservation) {
    reservation.reservationId in ledger.released
  }

  /** In every run each reservation is in one of three states: released, and then without any usage
      record; used, with one record that names its cost; or active, with no record or one that
      names no cost.  No two reservations share an identity, or a run and a call. */
  lemma Partition(policy: Policy, ops: seq<Op>, reservation: Reservation)
    requires reservation in Run(EmptyLedger(policy), ops).reservations
    ensures var ledger := Run(EmptyLedger(policy), ops);
            var id := reservation.reservationId;
            && (IsActive(ledger, reservation) || IsReleased(ledger, reservation) || IsUsed(ledger, reservation))
            && (IsReleased(ledger, reservation) ==> !IsActive(ledger, reservation) && !HasUsage(ledger.usages, id))
            && (IsUsed(ledger, reservation) <==>
                  exists i :: 0 <= i < |ledger.usages|
                           && ledger.usages[i].reservationId == id && ledger.usages[i].actualCost.Some?)
            && (IsActive(ledger, reservation) <==>
                  id !in ledger.released
                  && forall i :: 0 <= i < |ledger.usages| && ledger.usages[i].reservationId == id ==>
                       ledger.usages[i].actualCost.None?)
            && (forall i, j :: 0 <= i < j < |ledger.usages| ==>
                  !(ledger.usages[i].reservationId == id == ledger.usages[j].reservationId))
            && DistinctKeys(ledger.reservations)
  {
    ReachableInv(policy, ops);
    UsedMeansCosted(Run(EmptyLedger(policy), ops), reservation.reservationId);
  }

  /** A resolved record is one that names its cost. */
  lemma UsedMeansCosted(ledger: Ledger, id: string)
    requires UsagesFit(ledger)
    ensures id in ResolvedIds(ledger.usages)
       <==> exists i :: 0 <= i < |ledger.usages|
                     && ledger.usages[i].reservationId == id && ledger.usages[i].actualCost.Some?
    ensures HasUsage(ledger.usages, id) ==> id !in ledger.released
  {
    forall i | 0 <= i < |ledger.usages| ensures IsResolved(ledger.usages[i]) == ledger.usages[i].actualCost.Some? {
      var k :| 0 <= k < |ledger.reservations| && Fits(ledger.usages[i], ledger.reservations[k]);
    }
    forall u | u in ledger.usages ensures IsResolved(u) == u.actualCost.Some? {
      var i :| 0 <= i < |ledger.usages| && ledger.usages[i] == u;
    }
    if id in ResolvedIds(ledger.usages) {
      var u :| u in ledger.usages && IsResolved(u) && u.reservationId == id;
      var i :| 0 <= i < |ledger.usages| && ledger.usages[i] == u;
    }
  }

  // ---------------------------------------------------------------- additivity

  /** The exposure of each run of a set, added up. */
  ghost function ExposureOverRuns(ledger: Ledger, runs: set<string>, measure: Measure): nat {
    if runs == {} then 0
    else var run :| run in runs; Exposure(ledger, OfRun(run), measure) + ExposureOverRuns(ledger, runs - {run}, measure)
  }

  lemma {:induction false} NoRunsNoExposure(ledger: Ledger, n: nat, m: nat, measure: Measure)
    requires n <= |ledger.usages| && m <= |ledger.reservations|
    ensures Committed(ledger.usages[..n], OfRuns({}), measure) == 0
    ensures Reserved(ledger.reservations[..m], Settled(ledger), OfRuns({}), measure) == 0
  {
    if n > 0 {
      assert ledger.usages[..n][..n - 1] == ledger.usages[..n - 1];
      NoRunsNoExposure(ledger, n - 1, m, measure);
    } else if m > 0 {
      assert ledger.reservations[..m][..m - 1] == ledger.reservations[..m - 1];
      NoRunsNoExposure(ledger, n, m - 1, measure);
    }
  }

  lemma {:induction false} RunsAddUp(ledger: Ledger, runs: set<string>, measure: Measure)
    ensures ExposureOverRuns(ledger, runs, measure) == Exposure(ledger, OfRuns(runs), measure)
  {
    if runs == {} {
      NoRunsNoExposure(ledger, |ledger.usages|, |ledger.reservations|, measure);
      assert ledger.usages[..|ledger.usages|] == ledger.usages;
      assert ledger.reservations[..|ledger.reservations|] == ledger.reservations;
    } else {
      var run :| run in runs && ExposureOverRuns(ledger, runs, measure)
                             == Exposure(ledger, OfRun(run), measure) + ExposureOverRuns(ledger, runs - {run}, measure);
      RunsAddUp(ledger, runs - {run}, measure);
      ExposureSplits(ledger, OfRuns(runs), OfRun(run), OfRuns(runs - {run}), measure);
    }
  }

  function RunsOf(ledger: Ledger): set<string> {
    set r | r in ledger.reservations :: r.runId
  }

  /** Two scopes that cover the same records expose the same amount. */
  ghost predicate Coincide(ledger: Ledger, left: Scope, right: Scope) {
    && SplitsReservations(ledger.reservations, left, right, OfRuns({}))
    && SplitsUsages(ledger.usages, left, right, OfRuns({}))
  }

  lemma CoincidingExposure(ledger: Ledger, left: Scope, right: Scope, measure: Measure)
    requires Coincide(ledger, left, right)
    ensures Exposure(ledger, left, measure) == Exposure(ledger, right, measure)
  {
    ExposureSplits(ledger, left, right, OfRuns({}), measure);
    NoRunsNoExposure(ledger, |ledger.usages|, |ledger.reservations|, measure);
    assert ledger.usages[..|ledger.usages|] == ledger.usages;
    assert ledger.reservations[..|ledger.reservations|] == ledger.reservations;
  }

  /** A usage record belongs to a reservation of the same run, provider and model. */
  lemma UsageBinding(ledger: Ledger, usage: Usage) returns (reservation: Reservation)
    requires Inv(ledger) && usage in ledger.usages
    ensures reservation in ledger.reservations && Fits(usage, reservation)
  {
    var i :| 0 <= i < |ledger.usages| && ledger.usages[i] == usage;
    var k :| 0 <= k < |ledger.reservations| && Fits(ledger.usages[i], ledger.reservations[k]);
    reservation := ledger.reservations[k];
  }

  /** In every run the whole exposure is the sum over the runs that have a reservation. */
  lemma TotalIsTheSumOverRuns(policy: Policy, ops: seq<Op>, measure: Measure)
    ensures var ledger := Run(EmptyLedger(policy), ops);
            Exposure(ledger, Everything, measure) == ExposureOverRuns(ledger, RunsOf(ledger), measure)
  {
    ReachableInv(policy, ops);
    SumOverRuns(Run(EmptyLedger(policy), ops), measure);
  }

  lemma SumOverRuns(ledger: Ledger, measure: Measure)
    requires Inv(ledger)
    ensures Exposure(ledger, Everything, measure) == ExposureOverRuns(ledger, RunsOf(ledger), measure)
  {
    forall i | 0 <= i < |ledger.usages| ensures ledger.usages[i].runId in RunsOf(ledger) {
      var reservation := UsageBinding(ledger, ledger.usages[i]);
    }
    CoincidingExposure(ledger, Everything, OfRuns(RunsOf(ledger)), measure);
    RunsAddUp(ledger, RunsOf(ledger), measure);
  }

  lemma RecordsAreOfKnownModels(ledger: Ledger)
    requires Inv(ledger)
    ensures KnownModels(ledger)
  {
    forall u | u in ledger.usages ensures ProviderOf(u.model) == Some(u.provider) {
      var reservation := UsageBinding(ledger, u);
    }
  }

  /** In every run the whole exposure is the sum over the two providers, and over the three models. */
  lemma TotalIsTheSumOverProvidersAndModels(policy: Policy, ops: seq<Op>, measure: Measure)
    ensures var ledger := Run(EmptyLedger(policy), ops);
            && Exposure(ledger, Everything, measure)
               == Exposure(ledger, OfProvider(Anthropic), measure) + Exposure(ledger, OfProvider(DeepSeek), measure)
            && Exposure(ledger, Everything, measure)
               == Exposure(ledger, OfModel(ClaudeOpusL2), measure) + Exposure(ledger, OfModel(ClaudeSonnetL1), measure)
                  + Exposure(ledger, OfModel(DeepseekPrimary), measure)
  {
    ReachableInv(policy, ops);
    SumOverProvidersAndModels(Run(EmptyLedger(policy), ops), measure);
  }

  lemma SumOverProvidersAndModels(ledger: Ledger, measure: Measure)
    requires Inv(ledger)
    ensures Exposure(ledger, Everything, measure)
         == Exposure(ledger, OfProvider(Anthropic), measure) + Exposure(ledger, OfProvider(DeepSeek), measure)
    ensures Exposure(ledger, OfProvider(Anthropic), measure)
         == Exposure(ledger, OfModel(ClaudeOpusL2), measure) + Exposure(ledger, OfModel(ClaudeSonnetL1), measure)
    ensures Exposure(ledger, OfProvider(DeepSeek), measure) == Exposure(ledger, OfModel(DeepseekPrimary), measure)
  {
    RecordsAreOfKnownModels(ledger);
    SplitByProvider(ledger, measure);
    SplitByModel(ledger, measure);
  }

  /** Records of known models, each with its model's provider. */
  ghost predicate KnownModels(ledger: Ledger) {
    && (forall r :: r in ledger.reservations ==> ProviderOf(r.model) == Some(r.provider))
    && forall u :: u in ledger.usages ==> ProviderOf(u.model) == Some(u.provider)
  }

  lemma SplitByProvider(ledger: Ledger, measure: Measure)
    requires KnownModels(ledger)
    ensures Exposure(ledger, Everything, measure)
         == Exposure(ledger, OfProvider(Anthropic), measure) + Exposure(ledger, OfProvider(DeepSeek), measure)
  {
    ExposureSplits(ledger, Everything, OfProvider(Anthropic), OfProvider(DeepSeek), measure);
  }

  lemma SplitByModel(ledger: Ledger, measure: Measure)
    requires KnownModels(ledger)
    ensures Exposure(ledger, OfProvider(Anthropic), measure)
         == Exposure(ledger, OfModel(ClaudeOpusL2), measure) + Exposure(ledger, OfModel(ClaudeSonnetL1), measure)
    ensures Exposure(ledger, OfProvider(DeepSeek), measure) == Exposure(ledger, OfModel(DeepseekPrimary), measure)
  {
    ExposureSplits(ledger, OfProvider(Anthropic), OfModel(ClaudeOpusL2), OfModel(ClaudeSonnetL1), measure);
    CoincidingExposure(ledger, OfProvider(DeepSeek), OfModel(DeepseekPrimary), measure);
  }

  // ---------------------------------------------------------------- what stays

  lemma {:induction false} RunExtends(ledger: Ledger, ops: seq<Op>)
    ensures Extends(ledger, Run(ledger, ops))
  {
    if ops != [] {
      var before := Run(ledger, ops[..|ops| - 1]);
      RunExtends(ledger, ops[..|ops| - 1]);
      var next := StepCases(before, ops[|ops| - 1]);
      if Effect(before, ops[|ops| - 1], next) { EffectExtends(before, ops[|ops| - 1], next); }
    }
  }

  lemma {:induction false} ActiveIsCounted(reservations: seq<Reservation>, settled: set<string>, k: nat, scope: Scope,
                                           measure: Measure)
    requires k < |reservations| && reservations[k].reservationId !in settled
    ensures Reserved(reservations, settled, scope, measure) >= Held(reservations[k], scope, measure)
  {
    if k < |reservations| - 1 { ActiveIsCounted(reservations[..|reservations| - 1], settled, k, scope, measure); }
  }

  /** A reservation whose usage is uncertain stays active, and counted in full, for ever. */
  lemma UncertainStaysCounted(ledger: Ledger, ops: seq<Op>, usage: Usage, reservation: Reservation, scope: Scope,
                              measure: Measure)
    requires Inv(ledger)
    requires usage in ledger.usages && usage.actualCost.None?
    requires reservation in ledger.reservations && reservation.reservationId == usage.reservationId
    ensures reservation in Run(ledger, ops).reservations && IsActive(Run(ledger, ops), reservation)
    ensures Exposure(Run(ledger, ops), scope, measure) >= Held(reservation, scope, measure)
    ensures Run(ledger, ops).circuit != Open
  {
    var last := Run(ledger, ops);
    RunKeeps(ledger, ops);
    RunExtends(ledger, ops);
    var i :| 0 <= i < |ledger.usages| && ledger.usages[i] == usage;
    var k :| 0 <= k < |ledger.reservations| && ledger.reservations[k] == reservation;
    assert last.usages[i] == usage && last.reservations[k] == reservation;
    forall u | u in last.usages && u.reservationId == reservation.reservationId ensures u == usage {
      var j :| 0 <= j < |last.usages| && last.usages[j] == u;
      assert i == j;
    }
    ActiveIsCounted(last.reservations, Settled(last), k, scope, measure);
  }

  lemma {:induction false} FirstSameKeyIsItself(reservations: seq<Reservation>, k: nat)
    requires DistinctKeys(reservations) && k < |reservations|
    ensures FirstSameKey(reservations, reservations[k]) == Some(reservations[k])
  {
    if k > 0 {
      assert !SameKey(reservations[0], reservations[k]);
      FirstSameKeyIsItself(reservations[1..], k - 1);
    }
  }

  /** Asking again for a reservation already made is accepted at any later point, whatever the
      circuit, and changes nothing; a different one under either of its keys is refused. */
  lemma ReservationsReplayForever(ledger: Ledger, ops: seq<Op>, reservation: Reservation, other: Reservation)
    requires Inv(ledger) && reservation in ledger.reservations
    ensures ReserveCall(Run(ledger, ops), reservation) == Ok(Run(ledger, ops))
    ensures SameKey(reservation, other) && other !in Run(ledger, ops).reservations ==>
              ReserveCall(Run(ledger, ops), other) == Err(ConflictingDuplicate)
  {
    var last := Run(ledger, ops);
    RunKeeps(ledger, ops);
    RunExtends(ledger, ops);
    var k :| 0 <= k < |ledger.reservations| && ledger.reservations[k] == reservation;
    assert last.reservations[k] == reservation;
    FirstSameKeyIsItself(last.reservations, k);
    if SameKey(reservation, other) { SomeSameKey(last.reservations, k, other); }
  }

  lemma {:induction false} SomeSameKey(reservations: seq<Reservation>, k: nat, other: Reservation)
    requires k < |reservations| && SameKey(reservations[k], other)
    ensures FirstSameKey(reservations, other).Some? && FirstSameKey(reservations, other).value in reservations
  {
    if !SameKey(reservations[0], other) { SomeSameKey(reservations[1..], k - 1, other); }
  }

  // ---------------------------------------------------------------- closed for ever

  lemma ClosedStep(ledger: Ledger, op: Op, scope: Scope, measure: Measure)
    requires Inv(ledger) && ledger.circuit != Open
    ensures Next(ledger, op).circuit != Open && Next(ledger, op).reservations == ledger.reservations
    ensures Exposure(Next(ledger, op), scope, measure) <= Exposure(ledger, scope, measure)
  {
    StepKeeps(ledger, op);
    if Next(ledger, op) != ledger { EffectExposure(ledger, op, Next(ledger, op), scope, measure); }
  }

  /** Once the circuit leaves OPEN it never returns: no reservation is added, no call is
      authorized, and nothing exposed grows, for the rest of the run. */
  lemma {:induction false} ClosedForever(ledger: Ledger, ops: seq<Op>, scope: Scope, measure: Measure)
    requires Inv(ledger) && ledger.circuit != Open
    ensures Run(ledger, ops).circuit != Open
    ensures Run(ledger, ops).reservations == ledger.reservations
    ensures Exposure(Run(ledger, ops), scope, measure) <= Exposure(ledger, scope, measure)
    ensures forall provider, model, run, call ::
              EvaluateCallAuthorization(Run(ledger, ops), provider, model, run, call).Denied?
  {
    if ops != [] {
      ClosedForever(ledger, ops[..|ops| - 1], scope, measure);
      RunKeeps(ledger, ops[..|ops| - 1]);
      ClosedStep(Run(ledger, ops[..|ops| - 1]), ops[|ops| - 1], scope, measure);
    }
  }

  // ---------------------------------------------------------------- authorization

  predicate PolicyAdmits(ledger: Ledger, provider: Provider, model: Model) {
    && ledger.policy.status == PolicyActive && ledger.policy.ownerApproval.Some? && ledger.circuit == Open
    && provider in ledger.policy.allowedProviders && model in ledger.policy.allowedModels
    && ProviderOf(model) == Some(provider)
  }

  lemma {:induction false} FirstAuthorizingIsAny(ledger: Ledger, reservations: seq<Reservation>, provider: Provider,
                                                 model: Model, run: string, call: string)
    ensures match FirstAuthorizing(ledger, reservations, provider, model, run, call)
            case Some(r) => r in reservations && Authorizes(ledger, r, provider, model, run, call)
            case None => forall r :: r in reservations ==> !Authorizes(ledger, r, provider, model, run, call)
  {
    if reservations != [] { FirstAuthorizingIsAny(ledger, reservations[1..], provider, model, run, call); }
  }

  /** A call is authorized, under a reservation's identity, exactly when the policy admits it and
      that reservation is the active one made for this very call; there is never a second. */
  lemma AuthorizationIsExact(ledger: Ledger, provider: Provider, model: Model, run: string, call: string, id: string)
    requires Inv(ledger)
    ensures EvaluateCallAuthorization(ledger, provider, model, run, call) == Allowed(id)
        <==> PolicyAdmits(ledger, provider, model)
             && exists k :: 0 <= k < |ledger.reservations| && ledger.reservations[k].reservationId == id
                         && Authorizes(ledger, ledger.reservations[k], provider, model, run, call)
  {
    FirstAuthorizingIsAny(ledger, ledger.reservations, provider, model, run, call);
    var found := FirstAuthorizing(ledger, ledger.reservations, provider, model, run, call);
    if found.Some? {
      var j :| 0 <= j < |ledger.reservations| && ledger.reservations[j] == found.value;
      forall k | 0 <= k < |ledger.reservations| && Authorizes(ledger, ledger.reservations[k], provider, model, run, call)
        ensures k == j
      {
        assert SameKey(ledger.reservations[k], ledger.reservations[j]);
        assert SameKey(ledger.reservations[j], ledger.reservations[k]);
      }
    }
  }

  // ---------------------------------------------------------------- counting steps

  predicate IsUncertain(usage: Usage) { usage.actualCost.None? }

  function Uncertain(usages: seq<Usage>): nat {
    if usages == [] then 0 else Uncertain(usages[..|usages| - 1]) + if IsUncertain(usages[|usages| - 1]) then 1 else 0
  }

  /** The steps of a run that changed the ledger. */
  function Effective(ledger: Ledger, ops: seq<Op>): nat {
    if ops == [] then 0
    else Effective(ledger, ops[..|ops| - 1])
         + if Run(ledger, ops) != Run(ledger, ops[..|ops| - 1]) then 1 else 0
  }

  /** Those among them that activated the stop. */
  function StopsMade(ledger: Ledger, ops: seq<Op>): nat {
    if ops == [] then 0
    else StopsMade(ledger, ops[..|ops| - 1])
         + if ops[|ops| - 1].Stop? && Run(ledger, ops) != Run(ledger, ops[..|ops| - 1]) then 1 else 0
  }

  ghost predicate Counted(ledger: Ledger, effective: nat, stops: nat) {
    && ledger.sequence == effective == |ledger.reservations| + |ledger.usages| + |ledger.released| + stops
    && Uncertain(ledger.usages) <= |ledger.usages|
    && match ledger.circuit
       case Open => stops == 0 && Uncertain(ledger.usages) == 0
       case ReconciliationRequired => stops <= Uncertain(ledger.usages)
       case HardStop => stops <= 1 + Uncertain(ledger.usages)
  }

  lemma EffectCounts(ledger: Ledger, op: Op, next: Ledger, effective: nat, stops: nat)
    requires Counted(ledger, effective, stops) && Effect(ledger, op, next)
    ensures Counted(next, effective + 1, stops + if op.Stop? then 1 else 0)
  {
    if op.Commit? || op.ReconcileUncertain? { assert next.usages[..|ledger.usages|] == ledger.usages; }
  }

  lemma {:induction false} RunCounts(policy: Policy, ops: seq<Op>)
    ensures var start := EmptyLedger(policy);
            Counted(Run(start, ops), Effective(start, ops), StopsMade(start, ops))
  {
    if ops != [] {
      var start, shorter, op := EmptyLedger(policy), ops[..|ops| - 1], ops[|ops| - 1];
      RunCounts(policy, shorter);
      EmptyInv(policy);
      RunKeeps(start, shorter);
      StepKeeps(Run(start, shorter), op);
      if Run(start, ops) != Run(start, shorter) {
        EffectCounts(Run(start, shorter), op, Run(start, ops), Effective(start, shorter), StopsMade(start, shorter));
      }
    }
  }

  function UsedIds(usages: seq<Usage>): set<string> {
    set i | 0 <= i < |usages| :: usages[i].reservationId
  }

  function ReservationIds(reservations: seq<Reservation>): set<string> {
    set i | 0 <= i < |reservations| :: reservations[i].reservationId
  }

  lemma {:induction false} UsedIdsCount(usages: seq<Usage>)
    requires UsagesDistinct(usages)
    ensures |UsedIds(usages)| == |usages|
  {
    if usages != [] {
      var shorter, last := usages[..|usages| - 1], usages[|usages| - 1];
      UsedIdsCount(shorter);
      assert UsedIds(usages) == UsedIds(shorter) + {last.reservationId};
    }
  }

  lemma {:induction false} ReservationIdsCount(reservations: seq<Reservation>)
    ensures |ReservationIds(reservations)| <= |reservations|
  {
    if reservations != [] {
      var shorter, last := reservations[..|reservations| - 1], reservations[|reservations| - 1];
      ReservationIdsCount(shorter);
      assert ReservationIds(reservations) == ReservationIds(shorter) + {last.reservationId};
    }
  }

  lemma SubsetCount(small: set<string>, large: set<string>)
    requires small <= large
    ensures |small| <= |large|
  {
    assert large == small + (large - small);
  }

  /** Every usage record and every release uses up a reservation of its own. */
  lemma UsesAndReleasesAreBounded(policy: Policy, ops: seq<Op>)
    ensures var ledger := Run(EmptyLedger(policy), ops);
            |ledger.usages| + |ledger.released| <= |ledger.reservations|
  {
    ReachableInv(policy, ops);
    UsesAndReleases(Run(EmptyLedger(policy), ops));
  }

  lemma UsesAndReleases(ledger: Ledger)
    requires Inv(ledger)
    ensures |ledger.usages| + |ledger.released| <= |ledger.reservations|
  {
    UsedIdsCount(ledger.usages);
    ReservationIdsCount(ledger.reservations);
    assert UsedIds(ledger.usages) * ledger.released == {};
    assert UsedIds(ledger.usages) <= ReservationIds(ledger.reservations);
    assert ledger.released <= ReservationIds(ledger.reservations);
    SubsetCount(UsedIds(ledger.usages) + ledger.released, ReservationIds(ledger.reservations));
  }

  /** A run makes no more than three steps a permitted call, and one, however long it goes on
      asking; `sequence` counts exactly those steps. */
  lemma {:induction false} StepsAreBounded(policy: Policy, ops: seq<Op>)
    ensures Effective(EmptyLedger(policy), ops) <= 3 * policy.maxCalls + 1
    ensures Run(EmptyLedger(policy), ops).sequence == Effective(EmptyLedger(policy), ops)
    ensures StopsMade(EmptyLedger(policy), ops) <= 1 + Uncertain(Run(EmptyLedger(policy), ops).usages)
  {
    RunCounts(policy, ops);
    ReachableWithinCaps(policy, ops);
    UsesAndReleasesAreBounded(policy, ops);
  }
}
