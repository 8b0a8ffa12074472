/** What the budget ledger counts and answers, in the fields of its records: the sums behind the
    caps, what each step makes of a ledger and when, and what a refusal says.  Nothing here is
    stated through the totals and predicates that the steps themselves are made of. */
module BudgetMeaning {
  import opened Wrappers
  import opened BudgetControl
  import opened BudgetInvariants
  import opened BudgetProperties

  // ---------------------------------------------------------------- sums of fields

  ghost predicate UsageIn(usage: Usage, scope: Scope) {
    || scope == Everything || scope == OfProvider(usage.provider) || scope == OfModel(usage.model)
    || scope == OfRun(usage.runId) || (scope.OfRuns? && usage.runId in scope.runs)
  }

  ghost predicate ReservationIn(reservation: Reservation, scope: Scope) {
    || scope == Everything || scope == OfProvider(reservation.provider) || scope == OfModel(reservation.model)
    || scope == OfRun(reservation.runId) || (scope.OfRuns? && reservation.runId in scope.runs)
  }

  ghost function UsedOf(usage: Usage, scope: Scope, measure: Measure): nat {
    if usage.actualCost == None || !UsageIn(usage, scope) then 0
    else if measure == Cost then usage.actualCost.value
    else if measure == InputTokens then usage.inputTokens
    else usage.outputTokens
  }

  /** What the usages that name a cost have used. */
  ghost function UsedBy(usages: seq<Usage>, scope: Scope, measure: Measure): nat {
    if usages == [] then 0
    else UsedBy(usages[..|usages| - 1], scope, measure) + UsedOf(usages[|usages| - 1], scope, measure)
  }

  /** The reservation is neither released nor used at a named cost. */
  ghost predicate StillHeld(ledger: Ledger, reservation: Reservation) {
    && reservation.reservationId !in ledger.released
    && forall u :: u in ledger.usages && u.reservationId == reservation.reservationId ==> u.actualCost == None
  }

  ghost function AmountOf(reservation: Reservation, scope: Scope, measure: Measure): nat {
    if !ReservationIn(reservation, scope) then 0
    else if measure == Cost then reservation.cost
    else if measure == InputTokens then reservation.inputTokens
    else reservation.outputTokens
  }

  /** What those among the reservations that are still held set aside. */
  ghost function HeldBy(ledger: Ledger, reservations: seq<Reservation>, scope: Scope, measure: Measure): nat {
    if reservations == [] then 0
    else
      var reservation := reservations[|reservations| - 1];
      HeldBy(ledger, reservations[..|reservations| - 1], scope, measure)
      + if StillHeld(ledger, reservation) then AmountOf(reservation, scope, measure) else 0
  }

  ghost function UsedOrHeld(ledger: Ledger, scope: Scope, measure: Measure): nat {
    UsedBy(ledger.usages, scope, measure) + HeldBy(ledger, ledger.reservations, scope, measure)
  }

  /** Every usage that names a cost is resolved. */
  ghost predicate CostedAreResolved(usages: seq<Usage>) {
    forall u :: u in usages ==> (IsResolved(u) <==> u.actualCost != None)
  }

  lemma FittingAreResolved(ledger: Ledger)
    requires UsagesFit(ledger)
    ensures CostedAreResolved(ledger.usages)
  {
    forall u | u in ledger.usages ensures IsResolved(u) <==> u.actualCost != None {
      var i :| 0 <= i < |ledger.usages| && ledger.usages[i] == u;
      var k :| 0 <= k < |ledger.reservations| && Fits(ledger.usages[i], ledger.reservations[k]);
    }
  }

  lemma {:induction false} CommittedMeans(usages: seq<Usage>, scope: Scope, measure: Measure)
    requires CostedAreResolved(usages)
    ensures Committed(usages, scope, measure) == UsedBy(usages, scope, measure)
  {
    if usages != [] {
      CommittedMeans(usages[..|usages| - 1], scope, measure);
      SpentMeans(usages[|usages| - 1], scope, measure);
    }
  }

  lemma SpentMeans(usage: Usage, scope: Scope, measure: Measure)
    ensures Spent(usage, scope, measure)
         == if usage.reconciliation in {Resolved, ReconciledReleased} then UsedOf(usage, scope, measure) else 0
    ensures (IsResolved(usage) <==> usage.actualCost != None) ==>
              Spent(usage, scope, measure) == UsedOf(usage, scope, measure)
  {
  }

  lemma SettledMeans(ledger: Ledger, reservation: Reservation)
    requires CostedAreResolved(ledger.usages)
    ensures StillHeld(ledger, reservation) <==> reservation.reservationId !in Settled(ledger)
    ensures StillHeld(ledger, reservation) <==> IsActive(ledger, reservation)
  {
    var id := reservation.reservationId;
    if id in ResolvedIds(ledger.usages) {
      var u :| u in ledger.usages && IsResolved(u) && u.reservationId == id;
      assert u.actualCost != None;
    }
    if id !in ledger.released && !StillHeld(ledger, reservation) {
      var u :| u in ledger.usages && u.reservationId == id && u.actualCost != None;
      assert u.reservationId in ResolvedIds(ledger.usages);
    }
  }

  lemma {:induction false} ReservedMeans(ledger: Ledger, reservations: seq<Reservation>, scope: Scope, measure: Measure)
    requires CostedAreResolved(ledger.usages)
    ensures Reserved(reservations, Settled(ledger), scope, measure) == HeldBy(ledger, reservations, scope, measure)
  {
    if reservations != [] {
      var reservation := reservations[|reservations| - 1];
      ReservedMeans(ledger, reservations[..|reservations| - 1], scope, measure);
      SettledMeans(ledger, reservation);
      HeldMeans(reservation, scope, measure);
    }
  }

  lemma HeldMeans(reservation: Reservation, scope: Scope, measure: Measure)
    ensures Held(reservation, scope, measure) == AmountOf(reservation, scope, measure)
  {
  }

  /** The usages that name a cost and are resolved or reconciled as released. */
  ghost function Resolving(usages: seq<Usage>): seq<Usage> {
    if usages == [] then []
    else
      var usage := usages[|usages| - 1];
      Resolving(usages[..|usages| - 1])
      + if usage.actualCost != None && usage.reconciliation in {Resolved, ReconciledReleased} then [usage] else []
  }

  lemma UsedByOneMore(usages: seq<Usage>, usage: Usage, scope: Scope, measure: Measure)
    ensures UsedBy(usages + [usage], scope, measure) == UsedBy(usages, scope, measure) + UsedOf(usage, scope, measure)
  {
    assert (usages + [usage])[..|usages|] == usages;
  }

  lemma ResolvingLast(usages: seq<Usage>, scope: Scope, measure: Measure)
    requires usages != []
    ensures UsedBy(Resolving(usages), scope, measure)
         == UsedBy(Resolving(usages[..|usages| - 1]), scope, measure) + Spent(usages[|usages| - 1], scope, measure)
  {
    var usage, before := usages[|usages| - 1], Resolving(usages[..|usages| - 1]);
    SpentMeans(usage, scope, measure);
    UsedByOneMore(before, usage, scope, measure);
    assert before + [] == before;
  }

  /** Of any usages at all, those and only those are summed. */
  lemma {:induction false} CommittedOfAny(usages: seq<Usage>, scope: Scope, measure: Measure)
    ensures Committed(usages, scope, measure) == UsedBy(Resolving(usages), scope, measure)
  {
    if usages != [] {
      CommittedOfAny(usages[..|usages| - 1], scope, measure);
      ResolvingLast(usages, scope, measure);
    }
  }

  /** In every run the exposure of a part of the ledger is what its costed usages have used and its
      reservations still hold, summed from their fields. */
  lemma {:induction false} ExposureMeans(policy: Policy, ops: seq<Op>, scope: Scope, measure: Measure)
    ensures var ledger := Run(EmptyLedger(policy), ops);
            && Exposure(ledger, scope, measure) == UsedOrHeld(ledger, scope, measure)
            && Committed(ledger.usages, scope, measure) == UsedBy(ledger.usages, scope, measure)
            && Reserved(ledger.reservations, Settled(ledger), scope, measure)
               == HeldBy(ledger, ledger.reservations, scope, measure)
  {
    ReachableInv(policy, ops);
    ExposureIs(Run(EmptyLedger(policy), ops), scope, measure);
  }

  lemma ExposureIs(ledger: Ledger, scope: Scope, measure: Measure)
    requires UsagesFit(ledger)
    ensures Exposure(ledger, scope, measure) == UsedOrHeld(ledger, scope, measure)
    ensures Committed(ledger.usages, scope, measure) == UsedBy(ledger.usages, scope, measure)
    ensures Reserved(ledger.reservations, Settled(ledger), scope, measure)
         == HeldBy(ledger, ledger.reservations, scope, measure)
  {
    FittingAreResolved(ledger);
    CommittedMeans(ledger.usages, scope, measure);
    ReservedMeans(ledger, ledger.reservations, scope, measure);
  }

  ghost function CallsOf(reservations: seq<Reservation>, run: string): set<int> {
    set i | 0 <= i < |reservations| && reservations[i].runId == run
  }

  lemma {:induction false} RunCallsMeans(reservations: seq<Reservation>, run: string)
    ensures RunCalls(reservations, run) == |CallsOf(reservations, run)|
  {
    if reservations != [] {
      var n := |reservations| - 1;
      RunCallsMeans(reservations[..n], run);
      assert CallsOf(reservations, run)
          == CallsOf(reservations[..n], run) + if reservations[n].runId == run then {n} else {};
    }
  }

  // ---------------------------------------------------------------- the caps

  ghost predicate CostsCapped(policy: Policy, ledger: Ledger) {
    && UsedOrHeld(ledger, Everything, Cost) <= policy.totalCap
    && UsedOrHeld(ledger, OfProvider(Anthropic), Cost) <= policy.anthropicCap
    && UsedOrHeld(ledger, OfProvider(DeepSeek), Cost) <= policy.deepseekCap
    && UsedOrHeld(ledger, OfModel(ClaudeOpusL2), Cost) <= policy.opusCap
    && UsedOrHeld(ledger, OfModel(ClaudeSonnetL1), Cost) <= policy.sonnetCap
    && UsedOrHeld(ledger, OfModel(DeepseekPrimary), Cost) <= policy.primaryCap
    && forall run :: UsedOrHeld(ledger, OfRun(run), Cost) <= policy.runCap
  }

  ghost predicate TokensAndCallsCapped(policy: Policy, ledger: Ledger) {
    && UsedOrHeld(ledger, Everything, InputTokens) <= policy.maxInputTokens
    && UsedOrHeld(ledger, Everything, OutputTokens) <= policy.maxOutputTokens
    && |ledger.reservations| <= policy.maxCalls
    && forall run :: |CallsOf(ledger.reservations, run)| <= policy.maxCallsPerRun
  }

  /** Whatever is asked of a fresh ledger: the costs used and the costs still held stay within the
      total, provider, model and run caps, the tokens within theirs, and the calls within theirs. */
  lemma {:induction false} CapsHold(policy: Policy, ops: seq<Op>)
    ensures var ledger := Run(Ledger(policy, 0, [], [], {}, Open, None), ops);
            CostsCapped(policy, ledger) && TokensAndCallsCapped(policy, ledger)
  {
    ReachableWithinCaps(policy, ops);
    ReachableInv(policy, ops);
    CapsMean(Run(EmptyLedger(policy), ops));
  }

  lemma CapsMean(ledger: Ledger)
    requires UsagesFit(ledger) && WithinCaps(ledger)
    ensures CostsCapped(ledger.policy, ledger) && TokensAndCallsCapped(ledger.policy, ledger)
  {
    forall scope, measure ensures Exposure(ledger, scope, measure) == UsedOrHeld(ledger, scope, measure) {
      ExposureIs(ledger, scope, measure);
    }
    forall run ensures |CallsOf(ledger.reservations, run)| <= ledger.policy.maxCallsPerRun {
      RunCallsMeans(ledger.reservations, run);
    }
  }

  // ---------------------------------------------------------------- reserving

  ghost predicate SharesKey(ledger: Ledger, reservation: Reservation) {
    exists r :: r in ledger.reservations
             && (r.reservationId == reservation.reservationId
                 || (r.runId == reservation.runId && r.callId == reservation.callId))
  }

  ghost predicate ProviderAdmits(policy: Policy, ledger: Ledger, reservation: Reservation) {
    match reservation.provider
    case Anthropic =>
      && reservation.model in {ClaudeOpusL2, ClaudeSonnetL1}
      && UsedOrHeld(ledger, OfProvider(Anthropic), Cost) + reservation.cost <= policy.anthropicCap
    case DeepSeek =>
      && reservation.model == DeepseekPrimary
      && UsedOrHeld(ledger, OfProvider(DeepSeek), Cost) + reservation.cost <= policy.deepseekCap
    case OtherProvider(_) => false
  }

  ghost predicate ModelAdmits(policy: Policy, ledger: Ledger, reservation: Reservation) {
    match reservation.model
    case ClaudeOpusL2 => UsedOrHeld(ledger, OfModel(ClaudeOpusL2), Cost) + reservation.cost <= policy.opusCap
    case ClaudeSonnetL1 => UsedOrHeld(ledger, OfModel(ClaudeSonnetL1), Cost) + reservation.cost <= policy.sonnetCap
    case DeepseekPrimary => UsedOrHeld(ledger, OfModel(DeepseekPrimary), Cost) + reservation.cost <= policy.primaryCap
    case OtherModel(_) => false
  }

  ghost predicate AmountsAdmit(policy: Policy, ledger: Ledger, reservation: Reservation) {
    && UsedOrHeld(ledger, Everything, Cost) + reservation.cost <= policy.totalCap
    && UsedOrHeld(ledger, OfRun(reservation.runId), Cost) + reservation.cost <= policy.runCap
    && |ledger.reservations| < policy.maxCalls
    && |CallsOf(ledger.reservations, reservation.runId)| < policy.maxCallsPerRun
    && reservation.inputTokens + reservation.outputTokens <= policy.maxTokensPerCall
    && UsedOrHeld(ledger, Everything, InputTokens) + reservation.inputTokens <= policy.maxInputTokens
    && UsedOrHeld(ledger, Everything, OutputTokens) + reservation.outputTokens <= policy.maxOutputTokens
  }

  ghost predicate TermsAdmit(policy: Policy, ledger: Ledger, reservation: Reservation) {
    && ledger.circuit == Open && reservation.status == ReservationReserved && reservation.policyId == policy.policyId
    && reservation.provider in policy.allowedProviders && reservation.model in policy.allowedModels
    && policy.startsAt <= reservation.reservedAt < policy.endsAt && reservation.expiresAt <= policy.endsAt
  }

  ghost predicate MayReserve(ledger: Ledger, reservation: Reservation) {
    && TermsAdmit(ledger.policy, ledger, reservation) && ProviderAdmits(ledger.policy, ledger, reservation)
    && ModelAdmits(ledger.policy, ledger, reservation) && AmountsAdmit(ledger.policy, ledger, reservation)
  }

  lemma TermsMean(ledger: Ledger, reservation: Reservation)
    requires UsagesFit(ledger)
    ensures ReservationError(ledger, reservation) == None <==> MayReserve(ledger, reservation)
  {
    ExposureIs(ledger, Everything, Cost);
    ExposureIs(ledger, Everything, InputTokens);
    ExposureIs(ledger, Everything, OutputTokens);
    ExposureIs(ledger, OfProvider(reservation.provider), Cost);
    ExposureIs(ledger, OfModel(reservation.model), Cost);
    ExposureIs(ledger, OfRun(reservation.runId), Cost);
    RunCallsMeans(ledger.reservations, reservation.runId);
  }

  lemma SharedKeyMeans(ledger: Ledger, reservation: Reservation)
    requires DistinctKeys(ledger.reservations)
    ensures FirstSameKey(ledger.reservations, reservation) == None <==> !SharesKey(ledger, reservation)
    ensures reservation in ledger.reservations ==>
              FirstSameKey(ledger.reservations, reservation) == Some(reservation)
    ensures reservation !in ledger.reservations ==>
              FirstSameKey(ledger.reservations, reservation) != Some(reservation)
  {
    var found := FirstSameKey(ledger.reservations, reservation);
    if found == None { NoSameKey(ledger.reservations, reservation); }
    else { FoundSharesKey(ledger.reservations, reservation); }
    if reservation in ledger.reservations {
      var k :| 0 <= k < |ledger.reservations| && ledger.reservations[k] == reservation;
      FirstSameKeyIsItself(ledger.reservations, k);
    }
  }

  lemma {:induction false} FoundSharesKey(reservations: seq<Reservation>, reservation: Reservation)
    requires FirstSameKey(reservations, reservation).Some?
    ensures FirstSameKey(reservations, reservation).value in reservations
    ensures SameKey(FirstSameKey(reservations, reservation).value, reservation)
  {
    if !SameKey(reservations[0], reservation) { FoundSharesKey(reservations[1..], reservation); }
  }

  lemma NeverMalformed(ledger: Ledger, op: Op)
    requires Inv(ledger)
    ensures Apply(ledger, op) != Err(LedgerMalformed)
  {
    StepKeeps(ledger, op);
  }

  /** A reservation already made is accepted again and changes nothing, another under either of its
      keys is refused, and a new one is accepted if and only if its terms and every cap admit it;
      the ledger then holds it last. */
  lemma ReserveMeans(ledger: Ledger, reservation: Reservation)
    requires Inv(ledger)
    ensures reservation in ledger.reservations ==> ReserveCall(ledger, reservation) == Ok(ledger)
    ensures reservation !in ledger.reservations && SharesKey(ledger, reservation) ==>
              ReserveCall(ledger, reservation) == Err(ConflictingDuplicate)
    ensures !SharesKey(ledger, reservation) ==>
              if MayReserve(ledger, reservation)
              then ReserveCall(ledger, reservation) == Ok(Reserving(ledger, reservation))
              else ReserveCall(ledger, reservation).Err?
  {
    SharedKeyMeans(ledger, reservation);
    TermsMean(ledger, reservation);
    StepKeeps(ledger, Reserve(reservation));
  }

  function Reserving(ledger: Ledger, reservation: Reservation): Ledger {
    Ledger(ledger.policy, ledger.sequence + 1, ledger.reservations + [reservation], ledger.usages, ledger.released,
           ledger.circuit, Some(reservation.reservedAt))
  }

  // ---------------------------------------------------------------- settling

  ghost predicate Bound(usage: Usage, reservation: Reservation) {
    && usage.reservationId == reservation.reservationId && usage.policyId == reservation.policyId
    && usage.runId == reservation.runId && usage.callId == reservation.callId
    && usage.provider == reservation.provider && usage.model == reservation.model
  }

  /** The usage is of a reservation that is neither released nor used, and is not recorded yet. */
  ghost predicate MaySettle(ledger: Ledger, usage: Usage, reservation: Reservation) {
    && reservation in ledger.reservations && Bound(usage, reservation)
    && usage.reservationId !in ledger.released
    && forall u :: u in ledger.usages ==> u.reservationId != usage.reservationId && u.usageId != usage.usageId
  }

  ghost predicate AmountsFit(usage: Usage, reservation: Reservation) {
    && usage.actualCost != None && usage.actualCost.value <= reservation.cost && usage.estimatedCost <= reservation.cost
    && usage.inputTokens <= reservation.inputTokens && usage.outputTokens <= reservation.outputTokens
  }

  ghost predicate TimesFit(usage: Usage, reservation: Reservation) {
    reservation.reservedAt <= usage.startedAt && usage.completedAt <= reservation.expiresAt
  }

  ghost predicate WithinReservation(usage: Usage, reservation: Reservation) {
    AmountsFit(usage, reservation) && TimesFit(usage, reservation)
  }

  lemma {:induction false} FoundIs(reservations: seq<Reservation>, reservation: Reservation)
    requires DistinctKeys(reservations) && reservation in reservations
    ensures Find(reservations, reservation.reservationId) == Some(reservation)
  {
    if reservations[0].reservationId != reservation.reservationId { FoundIs(reservations[1..], reservation); }
    else {
      var k :| 0 <= k < |reservations| && reservations[k] == reservation;
      assert k > 0 ==> !SameKey(reservations[0], reservations[k]);
    }
  }

  lemma {:induction false} FoundIsThere(reservations: seq<Reservation>, id: string)
    requires Find(reservations, id).Some?
    ensures Find(reservations, id).value in reservations && Find(reservations, id).value.reservationId == id
  {
    if reservations[0].reservationId != id { FoundIsThere(reservations[1..], id); }
  }

  lemma MaySettleMeans(ledger: Ledger, usage: Usage)
    requires DistinctKeys(ledger.reservations)
    ensures UsageError(ledger, usage) == None ==>
              var found := Find(ledger.reservations, usage.reservationId);
              found.Some? && MaySettle(ledger, usage, found.value)
    ensures forall r :: MaySettle(ledger, usage, r) ==>
              UsageError(ledger, usage) == None && Find(ledger.reservations, usage.reservationId) == Some(r)
  {
    if Find(ledger.reservations, usage.reservationId).Some? { FoundIsThere(ledger.reservations, usage.reservationId); }
    forall r | MaySettle(ledger, usage, r)
      ensures UsageError(ledger, usage) == None && Find(ledger.reservations, usage.reservationId) == Some(r)
    {
      FoundIs(ledger.reservations, r);
    }
  }

  function Recording(ledger: Ledger, usage: Usage, circuit: Circuit): Ledger {
    Ledger(ledger.policy, ledger.sequence + 1, ledger.reservations, ledger.usages + [usage], ledger.released, circuit,
           Some(usage.completedAt))
  }

  ghost predicate MayCommit(ledger: Ledger, usage: Usage, reservation: Reservation) {
    && usage.outcome == Success && usage.reconciliation == Resolved
    && MaySettle(ledger, usage, reservation) && WithinReservation(usage, reservation)
  }

  /** A usage is committed if and only if it is a resolved success within an unsettled reservation of
      its own; it is then recorded last. */
  lemma CommitMeans(ledger: Ledger, usage: Usage)
    requires Inv(ledger)
    ensures CommitUsage(ledger, usage).Ok? <==> exists r :: MayCommit(ledger, usage, r)
    ensures CommitUsage(ledger, usage).Ok? ==>
              CommitUsage(ledger, usage).value == Recording(ledger, usage, ledger.circuit)
  {
    CommitIs(ledger, usage);
    NeverMalformed(ledger, Commit(usage));
  }

  lemma CommitIs(ledger: Ledger, usage: Usage)
    requires DistinctKeys(ledger.reservations)
    ensures (exists r :: MayCommit(ledger, usage, r)) ==>
              CommitUsage(ledger, usage) == Spawned(Recording(ledger, usage, ledger.circuit).(sequence := ledger.sequence))
    ensures CommitUsage(ledger, usage).Ok? ==> exists r :: MayCommit(ledger, usage, r)
  {
    MaySettleMeans(ledger, usage);
    if CommitUsage(ledger, usage).Ok? {
      assert MayCommit(ledger, usage, Find(ledger.reservations, usage.reservationId).value);
    }
  }

  /** An uncertain outcome is recorded if and only if it is one, of an unsettled reservation; it shuts
      the circuit. */
  lemma ReconcileMeans(ledger: Ledger, usage: Usage)
    requires Inv(ledger)
    ensures var may := usage.actualCost == None && usage.reconciliation == ReconciliationNeeded
                       && usage.uncertainTransport && usage.outcome in {Timeout, TransportFailure}
                       && exists r :: MaySettle(ledger, usage, r);
            if may then ReconcileUncertainUsage(ledger, usage) == Ok(Recording(ledger, usage, ReconciliationRequired))
            else ReconcileUncertainUsage(ledger, usage).Err?
  {
    MaySettleMeans(ledger, usage);
    NeverMalformed(ledger, ReconcileUncertain(usage));
  }

  /** Nothing has been used of the reservation. */
  ghost predicate MayRelease(ledger: Ledger, id: string, reservation: Reservation) {
    && reservation in ledger.reservations && reservation.reservationId == id
    && forall u :: u in ledger.usages ==> u.reservationId != id
  }

  function Releasing(ledger: Ledger, id: string, at: int): Ledger {
    Ledger(ledger.policy, ledger.sequence + 1, ledger.reservations, ledger.usages, ledger.released + {id}, ledger.circuit,
           Some(at))
  }

  /** A release is accepted if and only if its reservation is there and has no usage; of one released
      already, it changes nothing. */
  lemma ReleaseMeans(ledger: Ledger, id: string)
    requires Inv(ledger)
    ensures ReleaseReservation(ledger, id).Ok? <==> exists r :: MayRelease(ledger, id, r)
    ensures id in ledger.released ==> ReleaseReservation(ledger, id) == Ok(ledger)
    ensures id !in ledger.released ==>
              forall r :: MayRelease(ledger, id, r) ==>
                ReleaseReservation(ledger, id) == Ok(Releasing(ledger, id, r.reservedAt))
  {
    NeverMalformed(ledger, Release(id));
    ReleaseIs(ledger, id);
    if id in ledger.released { ReleasedMayBe(ledger, id); }
    else if Find(ledger.reservations, id).Some? && !HasUsage(ledger.usages, id) {
      assert MayRelease(ledger, id, Find(ledger.reservations, id).value);
    }
  }

  lemma ReleaseIs(ledger: Ledger, id: string)
    requires DistinctKeys(ledger.reservations)
    ensures Find(ledger.reservations, id).Some? ==>
              && Find(ledger.reservations, id).value in ledger.reservations
              && Find(ledger.reservations, id).value.reservationId == id
    ensures forall r :: MayRelease(ledger, id, r) ==>
              Find(ledger.reservations, id) == Some(r) && !HasUsage(ledger.usages, id)
  {
    if Find(ledger.reservations, id).Some? { FoundIsThere(ledger.reservations, id); }
    forall r | MayRelease(ledger, id, r) ensures Find(ledger.reservations, id) == Some(r) {
      FoundIs(ledger.reservations, r);
    }
  }

  lemma ReleasedMayBe(ledger: Ledger, id: string)
    requires UsagesFit(ledger) && ReleasesKnown(ledger) && DistinctKeys(ledger.reservations) && id in ledger.released
    ensures exists r :: MayRelease(ledger, id, r)
    ensures Find(ledger.reservations, id).Some?
  {
    var k :| 0 <= k < |ledger.reservations| && ledger.reservations[k].reservationId == id;
    assert MayRelease(ledger, id, ledger.reservations[k]);
    ReleaseIs(ledger, id);
  }

  /** A stop is accepted for the policy's own reasons; it shuts the circuit once. */
  lemma StopMeans(ledger: Ledger, reason: string)
    requires Inv(ledger)
    ensures reason !in ledger.policy.stopConditions ==> ActivateHardStop(ledger, reason).Err?
    ensures reason in ledger.policy.stopConditions && ledger.circuit == HardStop ==>
              ActivateHardStop(ledger, reason) == Ok(ledger)
    ensures reason in ledger.policy.stopConditions && ledger.circuit != HardStop ==>
              ActivateHardStop(ledger, reason)
              == Ok(Ledger(ledger.policy, ledger.sequence + 1, ledger.reservations, ledger.usages, ledger.released, HardStop,
                           Some(if ledger.updatedAt == None then ledger.policy.startsAt else ledger.updatedAt.value)))
  {
    NeverMalformed(ledger, Stop(reason));
  }

  // ---------------------------------------------------------------- authorization

  /** A reservation for this very call that is still held. */
  ghost predicate Backs(ledger: Ledger, reservation: Reservation, provider: Provider, model: Model, run: string,
                        call: string) {
    && reservation in ledger.reservations && StillHeld(ledger, reservation)
    && reservation.status == ReservationReserved && reservation.provider == provider && reservation.model == model
    && reservation.runId == run && reservation.callId == call
  }

  ghost predicate IsModelOf(model: Model, provider: Provider) {
    || (model in {ClaudeOpusL2, ClaudeSonnetL1} && provider == Anthropic)
    || (model == DeepseekPrimary && provider == DeepSeek)
  }

  /** A call is allowed if and only if the policy is active and approved, the circuit is open, provider
      and model are allowed and belong together, and a reservation made for this very call is still
      held, whose identity the answer names; otherwise the first of these that fails is the reason. */
  lemma AuthorizationMeans(ledger: Ledger, provider: Provider, model: Model, run: string, call: string)
    requires UsagesFit(ledger) && DistinctKeys(ledger.reservations)
    ensures var answer := EvaluateCallAuthorization(ledger, provider, model, run, call);
            if ledger.policy.status != PolicyActive then answer == Denied(PolicyInactive)
            else if ledger.policy.ownerApproval == None then answer == Denied(OwnerApprovalMissing)
            else if ledger.circuit != Open then answer == Denied(HardStopActive)
            else if provider !in ledger.policy.allowedProviders then answer == Denied(ProviderDenied)
            else if model !in ledger.policy.allowedModels || !IsModelOf(model, provider) then answer == Denied(ModelDenied)
            else if exists r :: Backs(ledger, r, provider, model, run, call)
            then forall r :: Backs(ledger, r, provider, model, run, call) ==> answer == Allowed(r.reservationId)
            else answer == Denied(NoReservation)
  {
    FirstAuthorizingIsAny(ledger, ledger.reservations, provider, model, run, call);
    forall r ensures Backs(ledger, r, provider, model, run, call)
                <==> r in ledger.reservations && Authorizes(ledger, r, provider, model, run, call)
    {
      BacksMeans(ledger, r, provider, model, run, call);
    }
    OneBacks(ledger, provider, model, run, call);
  }

  lemma BacksMeans(ledger: Ledger, reservation: Reservation, provider: Provider, model: Model, run: string, call: string)
    requires UsagesFit(ledger)
    ensures Backs(ledger, reservation, provider, model, run, call)
       <==> reservation in ledger.reservations && Authorizes(ledger, reservation, provider, model, run, call)
  {
    FittingAreResolved(ledger);
    SettledMeans(ledger, reservation);
  }

  lemma OneBacks(ledger: Ledger, provider: Provider, model: Model, run: string, call: string)
    requires DistinctKeys(ledger.reservations)
    ensures forall a, b ::
              Backs(ledger, a, provider, model, run, call) && Backs(ledger, b, provider, model, run, call) ==> a == b
  {
    forall a, b | Backs(ledger, a, provider, model, run, call) && Backs(ledger, b, provider, model, run, call)
      ensures a == b
    {
      var j :| 0 <= j < |ledger.reservations| && ledger.reservations[j] == a;
      var k :| 0 <= k < |ledger.reservations| && ledger.reservations[k] == b;
      assert SameKey(ledger.reservations[j], ledger.reservations[k]);
      assert SameKey(ledger.reservations[k], ledger.reservations[j]);
    }
  }

  // ---------------------------------------------------------------- what a step does to the sums

  ghost predicate Moves(ledger: Ledger, op: Op, scope: Scope, measure: Measure, before: int, after: int) {
    match op
    case Reserve(reservation) => after == before + AmountOf(reservation, scope, measure)
    case Commit(usage) =>
      exists r :: r in ledger.reservations && r.reservationId == usage.reservationId
               && after == before - AmountOf(r, scope, measure) + UsedOf(usage, scope, measure)
    case Release(id) =>
      exists r :: r in ledger.reservations && r.reservationId == id && after == before - AmountOf(r, scope, measure)
    case ReconcileUncertain(_) => after == before
    case Stop(_) => after == before
  }

  /** What each step that changes the ledger does to what a part of it has used or holds: a new
      reservation adds its amount, a commit trades that for what was used, a release takes it out,
      and an uncertain outcome or a stop changes nothing. */
  lemma StepsMoveSums(ledger: Ledger, op: Op, scope: Scope, measure: Measure)
    requires Inv(ledger) && Next(ledger, op) != ledger
    ensures Moves(ledger, op, scope, measure, UsedOrHeld(ledger, scope, measure),
                  UsedOrHeld(Next(ledger, op), scope, measure))
  {
    StepKeeps(ledger, op);
    ExposureIs(ledger, scope, measure);
    ExposureIs(Next(ledger, op), scope, measure);
    EffectMoves(ledger, op, Next(ledger, op), scope, measure);
  }

  lemma EffectMoves(ledger: Ledger, op: Op, next: Ledger, scope: Scope, measure: Measure)
    requires DistinctKeys(ledger.reservations) && UsagesFit(ledger) && ReleasesKnown(ledger) && Effect(ledger, op, next)
    ensures Moves(ledger, op, scope, measure, Exposure(ledger, scope, measure), Exposure(next, scope, measure))
  {
    match op
    case Reserve(reservation) =>
      NoSameKey(ledger.reservations, reservation);
      ReserveExposure(ledger, reservation, scope, measure);
      HeldMeans(reservation, scope, measure);
    case Commit(usage) => SettlingMoves(ledger, usage, ledger.circuit, scope, measure);
    case ReconcileUncertain(usage) => SettlingMoves(ledger, usage, ReconciliationRequired, scope, measure);
    case Release(id) => ReleaseMoves(ledger, id, next, scope, measure);
    case Stop(_) =>
  }

  lemma ReleaseMoves(ledger: Ledger, id: string, next: Ledger, scope: Scope, measure: Measure)
    requires DistinctKeys(ledger.reservations) && Effect(ledger, Release(id), next)
    ensures Moves(ledger, Release(id), scope, measure, Exposure(ledger, scope, measure), Exposure(next, scope, measure))
  {
    UnusedIsUnsettled(ledger, id);
    var k :| 0 <= k < |ledger.reservations| && ledger.reservations[k].reservationId == id
          && next == WithRelease(ledger, id, ledger.reservations[k].reservedAt);
    ReleaseExposure(ledger, k, ledger.reservations[k].reservedAt, scope, measure);
    HeldMeans(ledger.reservations[k], scope, measure);
    assert ledger.reservations[k] in ledger.reservations;
  }

  lemma SettlingMoves(ledger: Ledger, usage: Usage, circuit: Circuit, scope: Scope, measure: Measure)
    requires DistinctKeys(ledger.reservations) && exists k :: UsageAdmitted(ledger, usage, k)
    ensures usage.actualCost == None ==>
              Exposure(WithUsage(ledger, usage, circuit), scope, measure) == Exposure(ledger, scope, measure)
    ensures usage.actualCost != None ==>
              Moves(ledger, Commit(usage), scope, measure, Exposure(ledger, scope, measure),
                    Exposure(WithUsage(ledger, usage, circuit), scope, measure))
  {
    var k: nat :| UsageAdmitted(ledger, usage, k);
    UnusedIsUnsettled(ledger, usage.reservationId);
    UsageExposure(ledger, usage, circuit, k, scope, measure);
    if usage.actualCost != None {
      SpentMeans(usage, scope, measure);
      HeldMeans(ledger.reservations[k], scope, measure);
      assert ledger.reservations[k] in ledger.reservations;
    }
  }

  // ---------------------------------------------------------------- refusals

  /** Why a new reservation is refused for its terms: the first of these that applies. */
  ghost function TermsFault(ledger: Ledger, reservation: Reservation): Option<Error> {
    var policy := ledger.policy;
    if ledger.circuit != Open then Some(HardStopPreventsReservation)
    else if reservation.status != ReservationReserved then Some(NotReserved)
    else if reservation.policyId != policy.policyId then Some(PolicyMismatch)
    else if reservation.provider !in policy.allowedProviders then Some(ProviderNotAllowed)
    else if reservation.model !in policy.allowedModels then Some(ModelNotAllowed)
    else if !IsModelOf(reservation.model, reservation.provider) then Some(ModelProviderMismatch)
    else if reservation.reservedAt < policy.startsAt || reservation.reservedAt >= policy.endsAt then Some(OutsideWindow)
    else if reservation.expiresAt > policy.endsAt then Some(ExpiresAfterWindow)
    else None
  }

  /** And why for the caps. */
  ghost function CapsFault(ledger: Ledger, reservation: Reservation): Option<Error> {
    var policy, cost := ledger.policy, reservation.cost;
    if UsedOrHeld(ledger, Everything, Cost) + cost > policy.totalCap then Some(TotalCapExceeded)
    else if !ProviderAdmits(policy, ledger, reservation) then Some(ProviderCapExceeded)
    else if !ModelAdmits(policy, ledger, reservation) then Some(ModelCapExceeded)
    else if UsedOrHeld(ledger, OfRun(reservation.runId), Cost) + cost > policy.runCap then Some(RunCapExceeded)
    else if |ledger.reservations| >= policy.maxCalls then Some(CallCountExceeded)
    else if |CallsOf(ledger.reservations, reservation.runId)| >= policy.maxCallsPerRun then Some(RunCallCountExceeded)
    else if reservation.inputTokens + reservation.outputTokens > policy.maxTokensPerCall then Some(CallTokensExceeded)
    else if UsedOrHeld(ledger, Everything, InputTokens) + reservation.inputTokens > policy.maxInputTokens then
      Some(InputTokensExceeded)
    else if UsedOrHeld(ledger, Everything, OutputTokens) + reservation.outputTokens > policy.maxOutputTokens then
      Some(OutputTokensExceeded)
    else None
  }

  ghost function ReserveFault(ledger: Ledger, reservation: Reservation): Option<Error> {
    if reservation in ledger.reservations then None
    else if SharesKey(ledger, reservation) then Some(ConflictingDuplicate)
    else if TermsFault(ledger, reservation) != None then TermsFault(ledger, reservation)
    else CapsFault(ledger, reservation)
  }

  lemma ReserveRefusedFor(ledger: Ledger, reservation: Reservation)
    requires Inv(ledger)
    ensures IsRefusedFor(ReserveCall(ledger, reservation), ReserveFault(ledger, reservation))
  {
    SharedKeyMeans(ledger, reservation);
    ReserveMeans(ledger, reservation);
    ErrorIsFault(ledger, reservation);
  }

  lemma ErrorIsFault(ledger: Ledger, reservation: Reservation)
    requires UsagesFit(ledger)
    ensures ReservationError(ledger, reservation)
         == if TermsFault(ledger, reservation) != None then TermsFault(ledger, reservation)
            else CapsFault(ledger, reservation)
  {
    if TermsFault(ledger, reservation) != None {
      TermsErrorIsFault(ledger, reservation);
    } else {
      ExposureIs(ledger, Everything, Cost);
      ExposureIs(ledger, Everything, InputTokens);
      ExposureIs(ledger, Everything, OutputTokens);
      ExposureIs(ledger, OfProvider(reservation.provider), Cost);
      ExposureIs(ledger, OfModel(reservation.model), Cost);
      ExposureIs(ledger, OfRun(reservation.runId), Cost);
      RunCallsMeans(ledger.reservations, reservation.runId);
      CapsErrorIsFault(ledger, reservation);
    }
  }

  lemma TermsErrorIsFault(ledger: Ledger, reservation: Reservation)
    requires TermsFault(ledger, reservation) != None
    ensures ReservationError(ledger, reservation) == TermsFault(ledger, reservation)
  {
  }

  lemma CapsErrorIsFault(ledger: Ledger, reservation: Reservation)
    requires TermsFault(ledger, reservation) == None
    requires Exposure(ledger, Everything, Cost) == UsedOrHeld(ledger, Everything, Cost)
    requires Exposure(ledger, Everything, InputTokens) == UsedOrHeld(ledger, Everything, InputTokens)
    requires Exposure(ledger, Everything, OutputTokens) == UsedOrHeld(ledger, Everything, OutputTokens)
    requires var scope := OfProvider(reservation.provider); Exposure(ledger, scope, Cost) == UsedOrHeld(ledger, scope, Cost)
    requires var scope := OfModel(reservation.model); Exposure(ledger, scope, Cost) == UsedOrHeld(ledger, scope, Cost)
    requires var scope := OfRun(reservation.runId); Exposure(ledger, scope, Cost) == UsedOrHeld(ledger, scope, Cost)
    requires RunCalls(ledger.reservations, reservation.runId) == |CallsOf(ledger.reservations, reservation.runId)|
    ensures ReservationError(ledger, reservation) == CapsFault(ledger, reservation)
  {
  }

  /** Why a usage is refused before it is looked at: the first of these that applies. */
  ghost function SettlingFault(ledger: Ledger, usage: Usage): Option<Error> {
    if exists u :: u in ledger.usages && u.usageId == usage.usageId then Some(DuplicateUsage)
    else if forall r :: r in ledger.reservations ==> r.reservationId != usage.reservationId then Some(ReservationNotFound)
    else if forall r :: r in ledger.reservations ==> !Bound(usage, r) then Some(BindingMismatch)
    else if usage.reservationId in ledger.released then Some(AlreadyReleased)
    else if exists u :: u in ledger.usages && u.reservationId == usage.reservationId then Some(AlreadyUsed)
    else None
  }

  ghost function CommitFault(ledger: Ledger, usage: Usage): Option<Error> {
    if SettlingFault(ledger, usage) != None then SettlingFault(ledger, usage)
    else if usage.outcome != Success || usage.reconciliation != Resolved then Some(NotResolvedSuccess)
    else if !exists r :: r in ledger.reservations && Bound(usage, r) && AmountsFit(usage, r) then Some(ExceedsReservation)
    else if !exists r :: r in ledger.reservations && Bound(usage, r) && TimesFit(usage, r) then Some(OutsideReservation)
    else None
  }

  ghost function ReconcileFault(ledger: Ledger, usage: Usage): Option<Error> {
    if SettlingFault(ledger, usage) != None then SettlingFault(ledger, usage)
    else if usage.actualCost == None && usage.reconciliation == ReconciliationNeeded && usage.uncertainTransport
         && usage.outcome in {Timeout, TransportFailure} then None
    else Some(NotUncertain)
  }

  ghost function ReleaseFault(ledger: Ledger, id: string): Option<Error> {
    if forall r :: r in ledger.reservations ==> r.reservationId != id then Some(ReservationNotFound)
    else if id !in ledger.released && exists u :: u in ledger.usages && u.reservationId == id then Some(AlreadyUsed)
    else None
  }

  lemma {:induction false} NotFoundMeans(reservations: seq<Reservation>, id: string)
    ensures Find(reservations, id) == None <==> forall r :: r in reservations ==> r.reservationId != id
  {
    if reservations != [] {
      NotFoundMeans(reservations[1..], id);
      assert forall r :: r in reservations <==> r == reservations[0] || r in reservations[1..];
    }
  }

  lemma {:induction false} UsagesMean(usages: seq<Usage>, id: string)
    ensures HasUsage(usages, id) <==> exists u :: u in usages && u.reservationId == id
    ensures HasUsageRecord(usages, id) <==> exists u :: u in usages && u.usageId == id
  {
    if u :| u in usages && u.reservationId == id { var i :| 0 <= i < |usages| && usages[i] == u; }
    if u :| u in usages && u.usageId == id { var i :| 0 <= i < |usages| && usages[i] == u; }
  }

  /** The one reservation a usage can be bound to. */
  lemma BoundToFound(ledger: Ledger, usage: Usage)
    requires DistinctKeys(ledger.reservations)
    ensures forall r :: r in ledger.reservations && Bound(usage, r) ==>
              Find(ledger.reservations, usage.reservationId) == Some(r)
    ensures Find(ledger.reservations, usage.reservationId) != None ==>
              var found := Find(ledger.reservations, usage.reservationId).value;
              found in ledger.reservations && found.reservationId == usage.reservationId
              && (Binds(found, usage) <==> Bound(usage, found))
  {
    forall r | r in ledger.reservations && Bound(usage, r)
      ensures Find(ledger.reservations, usage.reservationId) == Some(r)
    {
      FoundIs(ledger.reservations, r);
    }
    if Find(ledger.reservations, usage.reservationId) != None { FoundIsThere(ledger.reservations, usage.reservationId); }
  }

  lemma UsageErrorIsFault(ledger: Ledger, usage: Usage)
    requires DistinctKeys(ledger.reservations)
    ensures UsageError(ledger, usage) == SettlingFault(ledger, usage)
  {
    NotFoundMeans(ledger.reservations, usage.reservationId);
    UsagesMean(ledger.usages, usage.usageId);
    UsagesMean(ledger.usages, usage.reservationId);
    BoundToFound(ledger, usage);
  }

  lemma CommitRefusedFor(ledger: Ledger, usage: Usage)
    requires DistinctKeys(ledger.reservations) && CommitUsage(ledger, usage) != Err(LedgerMalformed)
    ensures IsRefusedFor(CommitUsage(ledger, usage), CommitFault(ledger, usage))
  {
    UsageErrorIsFault(ledger, usage);
    BoundToFound(ledger, usage);
  }

  lemma ReconcileRefusedFor(ledger: Ledger, usage: Usage)
    requires DistinctKeys(ledger.reservations) && ReconcileUncertainUsage(ledger, usage) != Err(LedgerMalformed)
    ensures IsRefusedFor(ReconcileUncertainUsage(ledger, usage), ReconcileFault(ledger, usage))
  {
    UsageErrorIsFault(ledger, usage);
  }

  lemma ReleaseRefusedFor(ledger: Ledger, id: string)
    requires ReleaseReservation(ledger, id) != Err(LedgerMalformed)
    ensures IsRefusedFor(ReleaseReservation(ledger, id), ReleaseFault(ledger, id))
  {
    NotFoundMeans(ledger.reservations, id);
    UsagesMean(ledger.usages, id);
  }

  /** There is a refusal exactly when there is a fault, and for that. */
  ghost predicate IsRefusedFor(outcome: Outcome, fault: Option<Error>) {
    match outcome
    case Err(error) => fault == Some(error)
    case Ok(_) => fault == None
  }

  ghost function FaultOf(ledger: Ledger, op: Op): Option<Error> {
    match op
    case Reserve(reservation) => ReserveFault(ledger, reservation)
    case Commit(usage) => CommitFault(ledger, usage)
    case ReconcileUncertain(usage) => ReconcileFault(ledger, usage)
    case Release(id) => ReleaseFault(ledger, id)
    case Stop(reason) => if reason in ledger.policy.stopConditions then None else Some(StopReasonUnsupported)
  }

  /** Every refusal in a run is for the first fault there is, and there is a refusal exactly when
      there is a fault. */
  lemma {:induction false} RefusalsMean(policy: Policy, ops: seq<Op>, op: Op)
    ensures var ledger := Run(EmptyLedger(policy), ops);
            IsRefusedFor(Apply(ledger, op), FaultOf(ledger, op))
  {
    var ledger := Run(EmptyLedger(policy), ops);
    ReachableInv(policy, ops);
    NeverMalformed(ledger, op);
    match op
    case Reserve(reservation) => ReserveRefusedFor(ledger, reservation);
    case Commit(usage) => CommitRefusedFor(ledger, usage);
    case ReconcileUncertain(usage) => ReconcileRefusedFor(ledger, usage);
    case Release(id) => ReleaseRefusedFor(ledger, id);
    case Stop(_) =>
  }

  // ---------------------------------------------------------------- the constructor's checks

  function UsageIds(usages: seq<Usage>): set<string> {
    set i | 0 <= i < |usages| :: usages[i].usageId
  }

  lemma {:induction false} AsManyReservationIds(reservations: seq<Reservation>)
    ensures |ReservationIds(reservations)| <= |reservations|
    ensures |ReservationIds(reservations)| == |reservations|
       <==> forall i, j :: 0 <= i < j < |reservations| ==> reservations[i].reservationId != reservations[j].reservationId
  {
    if reservations != [] {
      var n := |reservations| - 1;
      AsManyReservationIds(reservations[..n]);
      assert ReservationIds(reservations) == ReservationIds(reservations[..n]) + {reservations[n].reservationId};
      assert reservations[n].reservationId in ReservationIds(reservations[..n])
         <==> exists i :: 0 <= i < n && reservations[i].reservationId == reservations[n].reservationId;
    }
  }

  lemma {:induction false} AsManyUsageIds(usages: seq<Usage>)
    ensures |UsageIds(usages)| <= |usages|
    ensures |UsageIds(usages)| == |usages| <==> forall i, j :: 0 <= i < j < |usages| ==> usages[i].usageId != usages[j].usageId
  {
    if usages != [] {
      var n := |usages| - 1;
      AsManyUsageIds(usages[..n]);
      assert UsageIds(usages) == UsageIds(usages[..n]) + {usages[n].usageId};
      assert usages[n].usageId in UsageIds(usages[..n]) <==> exists i :: 0 <= i < n && usages[i].usageId == usages[n].usageId;
    }
  }

  /** A ledger value is constructed if and only if it has as many reservation identities as
      reservations, as many usage identities as usages, and releases only reservations of its own. */
  lemma {:induction false} ConstructorChecksMean(ledger: Ledger)
    ensures Spawned(ledger)
         == if |set i | 0 <= i < |ledger.reservations| :: ledger.reservations[i].reservationId| == |ledger.reservations|
               && |set i | 0 <= i < |ledger.usages| :: ledger.usages[i].usageId| == |ledger.usages|
               && ledger.released <= set i | 0 <= i < |ledger.reservations| :: ledger.reservations[i].reservationId
            then Ok(ledger.(sequence := ledger.sequence + 1)) else Err(LedgerMalformed)
  {
    AsManyReservationIds(ledger.reservations);
    AsManyUsageIds(ledger.usages);
  }

  // ---------------------------------------------------------------- runs

  /** A run takes its steps one by one: an accepted one leaves its ledger, a refused one the same. */
  lemma RunsStepByStep(ledger: Ledger, ops: seq<Op>, op: Op)
    ensures op.Reserve? ==>
              Run(ledger, ops + [op]) == Left(Run(ledger, ops), ReserveCall(Run(ledger, ops), op.reservation))
    ensures op.Commit? ==> Run(ledger, ops + [op]) == Left(Run(ledger, ops), CommitUsage(Run(ledger, ops), op.usage))
    ensures op.Release? ==>
              Run(ledger, ops + [op]) == Left(Run(ledger, ops), ReleaseReservation(Run(ledger, ops), op.id))
    ensures op.ReconcileUncertain? ==>
              Run(ledger, ops + [op]) == Left(Run(ledger, ops), ReconcileUncertainUsage(Run(ledger, ops), op.usage))
    ensures op.Stop? ==>
              Run(ledger, ops + [op]) == Left(Run(ledger, ops), ActivateHardStop(Run(ledger, ops), op.reason))
    ensures Run(ledger, []) == ledger
  {
    assert (ops + [op])[..|ops|] == ops;
  }

  function Left(before: Ledger, outcome: Outcome): Ledger {
    if outcome.Ok? then outcome.value else before
  }
}
