/** What every run of the budget ledger keeps: the caps, the partition of its reservations,
    the accounting of its steps, and the finality of a stop. */
module BudgetInvariants {
  import opened Wrappers
  import opened BudgetControl

  // ---------------------------------------------------------------- sums

  predicate DistinctKeys(reservations: seq<Reservation>) {
    forall i, j :: 0 <= i < j < |reservations| ==> !SameKey(reservations[i], reservations[j])
  }

  lemma {:induction false} SettleStranger(reservations: seq<Reservation>, settled: set<string>, id: string,
                                          scope: Scope, measure: Measure)
    requires forall i :: 0 <= i < |reservations| ==> reservations[i].reservationId != id
    ensures Reserved(reservations, settled + {id}, scope, measure) == Reserved(reservations, settled, scope, measure)
  {
    if reservations != [] { SettleStranger(reservations[..|reservations| - 1], settled, id, scope, measure); }
  }

  /** Settling one reservation takes exactly its own amount out of what is held. */
  lemma {:induction false} SettleOne(reservations: seq<Reservation>, settled: set<string>, k: nat, scope: Scope,
                                     measure: Measure)
    requires DistinctKeys(reservations) && k < |reservations| && reservations[k].reservationId !in settled
    ensures Reserved(reservations, settled + {reservations[k].reservationId}, scope, measure)
            + Held(reservations[k], scope, measure)
         == Reserved(reservations, settled, scope, measure)
  {
    var shorter := reservations[..|reservations| - 1];
    if k < |shorter| {
      SettleOne(shorter, settled, k, scope, measure);
    } else {
      SettleStranger(shorter, settled, reservations[k].reservationId, scope, measure);
    }
  }

  /** Of a record covered by the one scope, exactly one of the two others covers it. */
  predicate SplitsAt(provider: Provider, model: Model, run: string, whole: Scope, left: Scope, right: Scope) {
    if Covers(whole, provider, model, run) then Covers(left, provider, model, run) != Covers(right, provider, model, run)
    else !Covers(left, provider, model, run) && !Covers(right, provider, model, run)
  }

  predicate SplitsReservations(reservations: seq<Reservation>, whole: Scope, left: Scope, right: Scope) {
    forall i :: 0 <= i < |reservations| ==>
      SplitsAt(reservations[i].provider, reservations[i].model, reservations[i].runId, whole, left, right)
  }

  predicate SplitsUsages(usages: seq<Usage>, whole: Scope, left: Scope, right: Scope) {
    forall i :: 0 <= i < |usages| ==> SplitsAt(usages[i].provider, usages[i].model, usages[i].runId, whole, left, right)
  }

  /** Where a scope is the disjoint union of two others, so is everything counted in it. */
  lemma ExposureSplits(ledger: Ledger, whole: Scope, left: Scope, right: Scope, measure: Measure)
    requires SplitsReservations(ledger.reservations, whole, left, right)
    requires SplitsUsages(ledger.usages, whole, left, right)
    ensures Exposure(ledger, whole, measure) == Exposure(ledger, left, measure) + Exposure(ledger, right, measure)
  {
    CommittedSplits(ledger.usages, whole, left, right, measure);
    ReservedSplits(ledger.reservations, Settled(ledger), whole, left, right, measure);
  }

  lemma {:induction false} CommittedSplits(usages: seq<Usage>, whole: Scope, left: Scope, right: Scope,
                                           measure: Measure)
    requires SplitsUsages(usages, whole, left, right)
    ensures Committed(usages, whole, measure) == Committed(usages, left, measure) + Committed(usages, right, measure)
  {
    if usages != [] {
      var last := usages[|usages| - 1];
      assert SplitsAt(last.provider, last.model, last.runId, whole, left, right);
      CommittedSplits(usages[..|usages| - 1], whole, left, right, measure);
    }
  }

  lemma HeldSplits(r: Reservation, whole: Scope, left: Scope, right: Scope, measure: Measure)
    requires SplitsAt(r.provider, r.model, r.runId, whole, left, right)
    ensures Held(r, whole, measure) == Held(r, left, measure) + Held(r, right, measure)
  {
  }

  lemma {:induction false} ReservedSplits(reservations: seq<Reservation>, settled: set<string>,
                                          whole: Scope, left: Scope, right: Scope, measure: Measure)
    requires SplitsReservations(reservations, whole, left, right)
    ensures Reserved(reservations, settled, whole, measure)
         == Reserved(reservations, settled, left, measure) + Reserved(reservations, settled, right, measure)
  {
    if reservations != [] {
      HeldSplits(reservations[|reservations| - 1], whole, left, right, measure);
      ReservedSplits(reservations[..|reservations| - 1], settled, whole, left, right, measure);
    }
  }

  // ---------------------------------------------------------------- the invariant

  predicate Fits(usage: Usage, reservation: Reservation) {
    && Binds(reservation, usage)
    && (usage.actualCost.None?
        || (IsResolved(usage) && usage.actualCost.value <= reservation.cost
            && usage.inputTokens <= reservation.inputTokens && usage.outputTokens <= reservation.outputTokens))
  }

  ghost predicate UsagesFit(ledger: Ledger) {
    forall i :: 0 <= i < |ledger.usages| ==>
      && ledger.usages[i].reservationId !in ledger.released
      && exists k :: 0 <= k < |ledger.reservations| && Fits(ledger.usages[i], ledger.reservations[k])
  }

  ghost predicate UsagesDistinct(usages: seq<Usage>) {
    forall i, j :: 0 <= i < j < |usages| ==>
      usages[i].usageId != usages[j].usageId && usages[i].reservationId != usages[j].reservationId
  }

  ghost predicate ReleasesKnown(ledger: Ledger) {
    forall id :: id in ledger.released ==>
      exists k :: 0 <= k < |ledger.reservations| && ledger.reservations[k].reservationId == id
  }

  ghost predicate ModelsKnown(ledger: Ledger) {
    forall r :: r in ledger.reservations ==> ProviderOf(r.model) == Some(r.provider)
  }

  ghost predicate WithinCaps(ledger: Ledger) {
    WithinAmounts(ledger) && WithinCalls(ledger)
  }

  /** The caps on costs and tokens. */
  ghost predicate WithinAmounts(ledger: Ledger) {
    var policy := ledger.policy;
    && Exposure(ledger, Everything, Cost) <= policy.totalCap
    && (forall provider :: Exposure(ledger, OfProvider(provider), Cost) <= policy.ProviderCap(provider))
    && (forall model :: Exposure(ledger, OfModel(model), Cost) <= policy.ModelCap(model))
    && (forall run :: Exposure(ledger, OfRun(run), Cost) <= policy.runCap)
    && Exposure(ledger, Everything, InputTokens) <= policy.maxInputTokens
    && Exposure(ledger, Everything, OutputTokens) <= policy.maxOutputTokens
  }

  /** The caps on the number of calls. */
  ghost predicate WithinCalls(ledger: Ledger) {
    && |ledger.reservations| <= ledger.policy.maxCalls
    && forall run :: RunCalls(ledger.reservations, run) <= ledger.policy.maxCallsPerRun
  }

  ghost predicate UncertaintyStops(ledger: Ledger) {
    ledger.circuit == Open ==> forall i :: 0 <= i < |ledger.usages| ==> ledger.usages[i].actualCost.Some?
  }

  ghost predicate Shape(ledger: Ledger) {
    && DistinctKeys(ledger.reservations) && UsagesDistinct(ledger.usages)
    && UsagesFit(ledger) && ReleasesKnown(ledger) && ModelsKnown(ledger)
  }

  ghost predicate Inv(ledger: Ledger) {
    Shape(ledger) && WithinCaps(ledger) && UncertaintyStops(ledger)
  }

  lemma EmptyInv(policy: Policy)
    ensures Inv(EmptyLedger(policy))
  {
  }

  // ---------------------------------------------------------------- searches

  lemma {:induction false} NoSameKey(reservations: seq<Reservation>, reservation: Reservation)
    requires FirstSameKey(reservations, reservation).None?
    ensures forall i :: 0 <= i < |reservations| ==> !SameKey(reservations[i], reservation)
  {
    if reservations != [] { NoSameKey(reservations[1..], reservation); }
  }

  lemma {:induction false} FindIndex(reservations: seq<Reservation>, id: string) returns (k: nat)
    requires Find(reservations, id).Some?
    ensures k < |reservations| && reservations[k].reservationId == id && Find(reservations, id) == Some(reservations[k])
  {
    if reservations[0].reservationId == id { k := 0; }
    else { k := FindIndex(reservations[1..], id); k := k + 1; }
  }

  // ---------------------------------------------------------------- what a step does to exposure

  lemma SettledAreReserved(ledger: Ledger, id: string)
    requires UsagesFit(ledger) && ReleasesKnown(ledger) && id in Settled(ledger)
    ensures exists k :: 0 <= k < |ledger.reservations| && ledger.reservations[k].reservationId == id
  {
    if id !in ledger.released {
      var u :| u in ledger.usages && IsResolved(u) && u.reservationId == id;
      var i :| 0 <= i < |ledger.usages| && ledger.usages[i] == u;
      var k :| 0 <= k < |ledger.reservations| && Fits(ledger.usages[i], ledger.reservations[k]);
    }
  }

  function WithReservation(ledger: Ledger, reservation: Reservation): Ledger {
    ledger.(sequence := ledger.sequence + 1, reservations := ledger.reservations + [reservation],
            updatedAt := Some(reservation.reservedAt))
  }

  /** A new reservation adds its own amounts to the scopes that cover it. */
  lemma ReserveExposure(ledger: Ledger, reservation: Reservation, scope: Scope, measure: Measure)
    requires UsagesFit(ledger) && ReleasesKnown(ledger)
    requires forall i :: 0 <= i < |ledger.reservations| ==> !SameKey(ledger.reservations[i], reservation)
    ensures Exposure(WithReservation(ledger, reservation), scope, measure)
         == Exposure(ledger, scope, measure) + Held(reservation, scope, measure)
  {
    var next := WithReservation(ledger, reservation);
    assert next.reservations[..|ledger.reservations|] == ledger.reservations;
    if reservation.reservationId in Settled(ledger) { SettledAreReserved(ledger, reservation.reservationId); }
  }

  function WithUsage(ledger: Ledger, usage: Usage, circuit: Circuit): Ledger {
    ledger.(sequence := ledger.sequence + 1, usages := ledger.usages + [usage], circuit := circuit,
            updatedAt := Some(usage.completedAt))
  }

  lemma ResolvedIdsExtend(usages: seq<Usage>, usage: Usage)
    ensures ResolvedIds(usages + [usage]) == ResolvedIds(usages) + if IsResolved(usage) then {usage.reservationId} else {}
  {
    assert forall u :: u in usages + [usage] <==> u in usages || u == usage;
    forall id | id in ResolvedIds(usages) ensures id in ResolvedIds(usages + [usage]) {
      var u :| u in usages && IsResolved(u) && u.reservationId == id;
      assert u in usages + [usage];
    }
    if IsResolved(usage) { assert usage in usages + [usage]; }
  }

  /** A resolved usage trades the reservation's amount for its own; an uncertain one changes nothing. */
  lemma UsageExposure(ledger: Ledger, usage: Usage, circuit: Circuit, k: nat, scope: Scope, measure: Measure)
    requires DistinctKeys(ledger.reservations) && k < |ledger.reservations|
    requires ledger.reservations[k].reservationId !in Settled(ledger) && Fits(usage, ledger.reservations[k])
    ensures IsResolved(usage) ==>
              Exposure(WithUsage(ledger, usage, circuit), scope, measure) + Held(ledger.reservations[k], scope, measure)
              == Exposure(ledger, scope, measure) + Spent(usage, scope, measure)
    ensures !IsResolved(usage) ==>
              Exposure(WithUsage(ledger, usage, circuit), scope, measure) == Exposure(ledger, scope, measure)
    ensures IsResolved(usage) ==> Spent(usage, scope, measure) <= Held(ledger.reservations[k], scope, measure)
  {
    var next := WithUsage(ledger, usage, circuit);
    assert next.usages[..|ledger.usages|] == ledger.usages;
    ResolvedIdsExtend(ledger.usages, usage);
    if IsResolved(usage) {
      SettleOne(ledger.reservations, Settled(ledger), k, scope, measure);
      assert Settled(next) == Settled(ledger) + {ledger.reservations[k].reservationId};
    } else {
      assert Settled(next) == Settled(ledger);
    }
  }

  function WithRelease(ledger: Ledger, id: string, at: int): Ledger {
    ledger.(sequence := ledger.sequence + 1, released := ledger.released + {id}, updatedAt := Some(at))
  }

  lemma ReleaseExposure(ledger: Ledger, k: nat, at: int, scope: Scope, measure: Measure)
    requires DistinctKeys(ledger.reservations) && k < |ledger.reservations|
    requires ledger.reservations[k].reservationId !in Settled(ledger)
    ensures Exposure(WithRelease(ledger, ledger.reservations[k].reservationId, at), scope, measure)
         == Exposure(ledger, scope, measure) - Held(ledger.reservations[k], scope, measure)
  {
    SettleOne(ledger.reservations, Settled(ledger), k, scope, measure);
    assert Settled(WithRelease(ledger, ledger.reservations[k].reservationId, at))
        == Settled(ledger) + {ledger.reservations[k].reservationId};
  }

  // ---------------------------------------------------------------- cases
  //
  // When a step makes a new ledger, and which.

  ghost predicate UsageAdmitted(ledger: Ledger, usage: Usage, k: nat) {
    && k < |ledger.reservations| && ledger.reservations[k].reservationId == usage.reservationId
    && Fits(usage, ledger.reservations[k])
    && usage.reservationId !in ledger.released
    && !HasUsage(ledger.usages, usage.reservationId) && !HasUsageRecord(ledger.usages, usage.usageId)
  }

  /** `next` is what an effective step makes of `ledger`. */
  ghost predicate Effect(ledger: Ledger, op: Op, next: Ledger) {
    match op
    case Reserve(reservation) =>
      && next == WithReservation(ledger, reservation)
      && FirstSameKey(ledger.reservations, reservation).None? && ReservationError(ledger, reservation).None?
    case Commit(usage) =>
      && next == WithUsage(ledger, usage, ledger.circuit)
      && IsResolved(usage) && exists k :: UsageAdmitted(ledger, usage, k)
    case ReconcileUncertain(usage) =>
      && next == WithUsage(ledger, usage, ReconciliationRequired)
      && usage.actualCost.None? && exists k :: UsageAdmitted(ledger, usage, k)
    case Release(id) =>
      && id !in ledger.released && !HasUsage(ledger.usages, id)
      && exists k :: 0 <= k < |ledger.reservations| && ledger.reservations[k].reservationId == id
                  && next == WithRelease(ledger, id, ledger.reservations[k].reservedAt)
    case Stop(_) =>
      && ledger.circuit != HardStop
      && next == ledger.(sequence := ledger.sequence + 1, circuit := HardStop, updatedAt := next.updatedAt)
  }

  /** What the guards of a step leave: a refusal, the same ledger, or its effect, which only the
      constructor's own checks could still refuse. */
  ghost predicate Cases(ledger: Ledger, op: Op, next: Ledger) {
    || Apply(ledger, op) == Ok(ledger)
    || (Apply(ledger, op).Err? && Apply(ledger, op).error != LedgerMalformed)
    || (Effect(ledger, op, next) && Apply(ledger, op) == if WellFormed(next) then Ok(next) else Err(LedgerMalformed))
  }

  lemma ReserveCases(ledger: Ledger, reservation: Reservation)
    ensures Cases(ledger, Reserve(reservation), WithReservation(ledger, reservation))
  {
  }

  lemma CommitCases(ledger: Ledger, usage: Usage)
    ensures Cases(ledger, Commit(usage), WithUsage(ledger, usage, ledger.circuit))
  {
    if UsageError(ledger, usage).None? {
      var k := FindIndex(ledger.reservations, usage.reservationId);
      if IsResolved(usage) && Fits(usage, ledger.reservations[k]) { assert UsageAdmitted(ledger, usage, k); }
    }
  }

  lemma ReconcileCases(ledger: Ledger, usage: Usage)
    ensures Cases(ledger, ReconcileUncertain(usage), WithUsage(ledger, usage, ReconciliationRequired))
  {
    if UsageError(ledger, usage).None? {
      var k := FindIndex(ledger.reservations, usage.reservationId);
      if usage.actualCost.None? { assert UsageAdmitted(ledger, usage, k); }
    }
  }

  lemma StepCases(ledger: Ledger, op: Op) returns (next: Ledger)
    ensures Cases(ledger, op, next)
  {
    match op
    case Reserve(reservation) => ReserveCases(ledger, reservation); next := WithReservation(ledger, reservation);
    case Commit(usage) => CommitCases(ledger, usage); next := WithUsage(ledger, usage, ledger.circuit);
    case ReconcileUncertain(usage) =>
      ReconcileCases(ledger, usage);
      next := WithUsage(ledger, usage, ReconciliationRequired);
    case Release(id) =>
      next := ledger;
      if Find(ledger.reservations, id).Some? {
        var k := FindIndex(ledger.reservations, id);
        next := WithRelease(ledger, id, ledger.reservations[k].reservedAt);
      }
    case Stop(_) =>
      next := ledger.(sequence := ledger.sequence + 1, circuit := HardStop,
                      updatedAt := if ledger.updatedAt.Some? then ledger.updatedAt else Some(ledger.policy.startsAt));
  }

  // ---------------------------------------------------------------- what an effect keeps

  lemma EffectKeepsReservations(ledger: Ledger, op: Op, next: Ledger)
    requires DistinctKeys(ledger.reservations) && ModelsKnown(ledger) && Effect(ledger, op, next)
    ensures DistinctKeys(next.reservations) && ModelsKnown(next)
  {
    if op.Reserve? { NoSameKey(ledger.reservations, op.reservation); }
  }

  /** Nothing recorded is ever altered or withdrawn. */
  ghost predicate Extends(ledger: Ledger, next: Ledger) {
    && ledger.policy == next.policy
    && ledger.reservations <= next.reservations && ledger.usages <= next.usages && ledger.released <= next.released
  }

  lemma EffectExtends(ledger: Ledger, op: Op, next: Ledger)
    requires Effect(ledger, op, next)
    ensures Extends(ledger, next) && next.sequence == ledger.sequence + 1
  {
  }

  lemma FitsStays(ledger: Ledger, next: Ledger, usage: Usage)
    requires Extends(ledger, next)
    requires exists k :: 0 <= k < |ledger.reservations| && Fits(usage, ledger.reservations[k])
    ensures exists k :: 0 <= k < |next.reservations| && Fits(usage, next.reservations[k])
  {
    var k :| 0 <= k < |ledger.reservations| && Fits(usage, ledger.reservations[k]);
    assert Fits(usage, next.reservations[k]);
  }

  lemma EffectKeepsUsages(ledger: Ledger, op: Op, next: Ledger)
    requires UsagesDistinct(ledger.usages) && UsagesFit(ledger) && ReleasesKnown(ledger) && Effect(ledger, op, next)
    ensures UsagesDistinct(next.usages) && UsagesFit(next)
  {
    EffectExtends(ledger, op, next);
    forall i | 0 <= i < |next.usages|
      ensures next.usages[i].reservationId !in next.released
      ensures exists k :: 0 <= k < |next.reservations| && Fits(next.usages[i], next.reservations[k])
    {
      if i < |ledger.usages| {
        assert next.usages[i] == ledger.usages[i];
        FitsStays(ledger, next, ledger.usages[i]);
      }
    }
  }

  lemma EffectKeepsReleases(ledger: Ledger, op: Op, next: Ledger)
    requires ReleasesKnown(ledger) && Effect(ledger, op, next)
    ensures ReleasesKnown(next)
  {
    EffectExtends(ledger, op, next);
    forall id | id in next.released
      ensures exists k :: 0 <= k < |next.reservations| && next.reservations[k].reservationId == id
    {
      if id in ledger.released {
        var k :| 0 <= k < |ledger.reservations| && ledger.reservations[k].reservationId == id;
        assert next.reservations[k].reservationId == id;
      }
    }
  }

  lemma {:induction false} EffectKeepsShape(ledger: Ledger, op: Op, next: Ledger)
    requires Shape(ledger) && Effect(ledger, op, next)
    ensures Shape(next) && WellFormed(next)
  {
    EffectKeepsReservations(ledger, op, next);
    EffectKeepsUsages(ledger, op, next);
    EffectKeepsReleases(ledger, op, next);
  }

  lemma UnusedIsUnsettled(ledger: Ledger, id: string)
    requires id !in ledger.released && !HasUsage(ledger.usages, id)
    ensures id !in Settled(ledger)
  {
    forall u | u in ledger.usages ensures u.reservationId != id {
      var i :| 0 <= i < |ledger.usages| && ledger.usages[i] == u;
    }
  }

  /** Only a reservation raises what is exposed, and only by what it reserves. */
  lemma EffectExposure(ledger: Ledger, op: Op, next: Ledger, scope: Scope, measure: Measure)
    requires Shape(ledger) && Effect(ledger, op, next)
    ensures Exposure(next, scope, measure)
         <= Exposure(ledger, scope, measure) + if op.Reserve? then Held(op.reservation, scope, measure) else 0
  {
    match op
    case Reserve(reservation) =>
      NoSameKey(ledger.reservations, reservation);
      ReserveExposure(ledger, reservation, scope, measure);
    case Commit(usage) => UsageEffectExposure(ledger, usage, ledger.circuit, scope, measure);
    case ReconcileUncertain(usage) => UsageEffectExposure(ledger, usage, ReconciliationRequired, scope, measure);
    case Release(id) =>
      UnusedIsUnsettled(ledger, id);
      var k :| 0 <= k < |ledger.reservations| && ledger.reservations[k].reservationId == id
            && next == WithRelease(ledger, id, ledger.reservations[k].reservedAt);
      ReleaseExposure(ledger, k, ledger.reservations[k].reservedAt, scope, measure);
    case Stop(_) =>
  }

  lemma UsageEffectExposure(ledger: Ledger, usage: Usage, circuit: Circuit, scope: Scope, measure: Measure)
    requires DistinctKeys(ledger.reservations) && exists k :: UsageAdmitted(ledger, usage, k)
    ensures Exposure(WithUsage(ledger, usage, circuit), scope, measure) <= Exposure(ledger, scope, measure)
  {
    var k :| UsageAdmitted(ledger, usage, k);
    UnusedIsUnsettled(ledger, usage.reservationId);
    UsageExposure(ledger, usage, circuit, k, scope, measure);
  }

  lemma RunCallsExtend(reservations: seq<Reservation>, reservation: Reservation, run: string)
    ensures RunCalls(reservations + [reservation], run)
         == RunCalls(reservations, run) + if reservation.runId == run then 1 else 0
  {
    assert (reservations + [reservation])[..|reservations|] == reservations;
  }

  lemma ReserveKeepsAmounts(ledger: Ledger, reservation: Reservation)
    requires Shape(ledger) && WithinAmounts(ledger)
    requires Effect(ledger, Reserve(reservation), WithReservation(ledger, reservation))
    ensures WithinAmounts(WithReservation(ledger, reservation))
  {
    var next := WithReservation(ledger, reservation);
    forall scope, measure
      ensures Exposure(next, scope, measure) <= Exposure(ledger, scope, measure) + Held(reservation, scope, measure)
    {
      EffectExposure(ledger, Reserve(reservation), next, scope, measure);
    }
  }

  lemma ReserveKeepsCalls(ledger: Ledger, reservation: Reservation)
    requires WithinCalls(ledger) && ReservationError(ledger, reservation).None?
    ensures WithinCalls(WithReservation(ledger, reservation))
  {
    forall run
      ensures RunCalls(ledger.reservations + [reservation], run)
           == RunCalls(ledger.reservations, run) + if reservation.runId == run then 1 else 0
    {
      RunCallsExtend(ledger.reservations, reservation, run);
    }
  }

  lemma EffectKeepsCaps(ledger: Ledger, op: Op, next: Ledger)
    requires Shape(ledger) && WithinCaps(ledger) && Effect(ledger, op, next)
    ensures WithinCaps(next)
  {
    if op.Reserve? {
      ReserveKeepsAmounts(ledger, op.reservation);
      ReserveKeepsCalls(ledger, op.reservation);
    } else {
      forall scope, measure ensures Exposure(next, scope, measure) <= Exposure(ledger, scope, measure) {
        EffectExposure(ledger, op, next, scope, measure);
      }
    }
  }

  lemma EffectKeeps(ledger: Ledger, op: Op, next: Ledger)
    requires Inv(ledger) && Effect(ledger, op, next)
    ensures Inv(next) && WellFormed(next)
  {
    EffectKeepsShape(ledger, op, next);
    EffectKeepsCaps(ledger, op, next);
    EffectKeepsCircuit(ledger, op, next);
  }

  lemma EffectKeepsCircuit(ledger: Ledger, op: Op, next: Ledger)
    requires UncertaintyStops(ledger) && Effect(ledger, op, next)
    ensures UncertaintyStops(next)
  {
  }

  // ---------------------------------------------------------------- runs

  /** A step is refused, changes nothing, or has its effect; and the constructor's own checks
      never refuse a step that its guards admit. */
  lemma {:induction false} StepKeeps(ledger: Ledger, op: Op)
    requires Inv(ledger)
    ensures Inv(Next(ledger, op))
    ensures Next(ledger, op) == ledger || Effect(ledger, op, Next(ledger, op))
    ensures Apply(ledger, op) != Err(LedgerMalformed)
  {
    var next := StepCases(ledger, op);
    if Effect(ledger, op, next) { EffectKeeps(ledger, op, next); }
  }

  lemma {:induction false} RunKeeps(ledger: Ledger, ops: seq<Op>)
    requires Inv(ledger)
    ensures Inv(Run(ledger, ops))
  {
    if ops != [] {
      RunKeeps(ledger, ops[..|ops| - 1]);
      StepKeeps(Run(ledger, ops[..|ops| - 1]), ops[|ops| - 1]);
    }
  }

  lemma ReachableInv(policy: Policy, ops: seq<Op>)
    ensures Inv(Run(EmptyLedger(policy), ops))
  {
    EmptyInv(policy);
    RunKeeps(EmptyLedger(policy), ops);
  }

  /** Whatever is asked of a fresh ledger, no cap is ever exceeded. */
  lemma {:induction false} ReachableWithinCaps(policy: Policy, ops: seq<Op>)
    ensures WithinCaps(Run(EmptyLedger(policy), ops)) && Run(EmptyLedger(policy), ops).policy == policy
  {
    ReachableInv(policy, ops);
    PolicyIsFixed(EmptyLedger(policy), ops);
  }

  lemma {:induction false} PolicyIsFixed(ledger: Ledger, ops: seq<Op>)
    ensures Run(ledger, ops).policy == ledger.policy
  {
    if ops != [] {
      PolicyIsFixed(ledger, ops[..|ops| - 1]);
      var next := StepCases(Run(ledger, ops[..|ops| - 1]), ops[|ops| - 1]);
    }
  }
}
