/** The Phase 11 budget ledger: an immutable value, and the pure steps from one value to the
    next.  Costs are exact integers in millionths of a dollar; timestamps are integers. */
module BudgetControl {
  import opened Wrappers

  datatype Provider = Anthropic | DeepSeek | OtherProvider(name: string)
  datatype Model = ClaudeOpusL2 | ClaudeSonnetL1 | DeepseekPrimary | OtherModel(name: string)

  function ProviderOf(model: Model): Option<Provider> {
    match model
    case ClaudeOpusL2 => Some(Anthropic)
    case ClaudeSonnetL1 => Some(Anthropic)
    case DeepseekPrimary => Some(DeepSeek)
    case OtherModel(_) => None
  }

  datatype PolicyStatus = PolicyActive | PolicyClosed | PolicyDraft | PolicyStopped

  datatype Policy = Policy(
    policyId: string, status: PolicyStatus, ownerApproval: Option<string>,
    totalCap: nat, anthropicCap: nat, deepseekCap: nat, opusCap: nat, sonnetCap: nat, primaryCap: nat, runCap: nat,
    maxCalls: nat, maxCallsPerRun: nat, maxInputTokens: nat, maxOutputTokens: nat, maxTokensPerCall: nat,
    allowedProviders: set<Provider>, allowedModels: set<Model>,
    startsAt: int, endsAt: int, stopConditions: set<string>)
  {
    function ProviderCap(provider: Provider): nat {
      match provider
      case Anthropic => anthropicCap
      case DeepSeek => deepseekCap
      case OtherProvider(_) => 0
    }

    function ModelCap(model: Model): nat {
      match model
      case ClaudeOpusL2 => opusCap
      case ClaudeSonnetL1 => sonnetCap
      case DeepseekPrimary => primaryCap
      case OtherModel(_) => 0
    }
  }

  datatype ReservationStatus = ReservationReserved | ReservationCommitted | ReservationReleased | ReservationUncertain

  datatype Reservation = Reservation(
    reservationId: string, policyId: string, runId: string, callId: string, provider: Provider, model: Model,
    cost: nat, inputTokens: nat, outputTokens: nat, reservedAt: int, expiresAt: int,
    status: ReservationStatus, reasonCodes: seq<string>)

  datatype UsageOutcome = MalformedResponse | NoCall | Success | Timeout | TransportFailure
  datatype Reconciliation = ReconciliationNeeded | ReconciledReleased | Resolved | Uncertain

  datatype Usage = Usage(
    usageId: string, reservationId: string, policyId: string, runId: string, callId: string,
    provider: Provider, model: Model, inputTokens: nat, outputTokens: nat,
    estimatedCost: nat, actualCost: Option<nat>, startedAt: int, completedAt: int,
    outcome: UsageOutcome, reconciliation: Reconciliation, uncertainTransport: bool)

  datatype Circuit = Open | HardStop | ReconciliationRequired

  datatype Ledger = Ledger(
    policy: Policy, sequence: nat, reservations: seq<Reservation>, usages: seq<Usage>,
    released: set<string>, circuit: Circuit, updatedAt: Option<int>)

  datatype Error =
    | ConflictingDuplicate | HardStopPreventsReservation | NotReserved | PolicyMismatch
    | ProviderNotAllowed | ModelNotAllowed | ModelProviderMismatch | OutsideWindow | ExpiresAfterWindow
    | TotalCapExceeded | ProviderCapExceeded | ModelCapExceeded | RunCapExceeded
    | CallCountExceeded | RunCallCountExceeded | CallTokensExceeded | InputTokensExceeded | OutputTokensExceeded
    | DuplicateUsage | ReservationNotFound | BindingMismatch | AlreadyReleased | AlreadyUsed
    | NotResolvedSuccess | ExceedsReservation | OutsideReservation | NotUncertain | StopReasonUnsupported
    | LedgerMalformed

  type Outcome = Result<Ledger, Error>

  // ---------------------------------------------------------------- derived totals

  /** A part of the ledger that a cap speaks of. */
  datatype Scope = Everything | OfProvider(provider: Provider) | OfModel(model: Model) | OfRun(run: string) | OfRuns(runs: set<string>)

  datatype Measure = Cost | InputTokens | OutputTokens

  predicate Covers(scope: Scope, provider: Provider, model: Model, run: string) {
    match scope
    case Everything => true
    case OfProvider(p) => provider == p
    case OfModel(m) => model == m
    case OfRun(r) => run == r
    case OfRuns(rs) => run in rs
  }

  predicate IsResolved(usage: Usage) {
    usage.actualCost.Some? && (usage.reconciliation == Resolved || usage.reconciliation == ReconciledReleased)
  }

  function Spent(usage: Usage, scope: Scope, measure: Measure): nat {
    if !IsResolved(usage) || !Covers(scope, usage.provider, usage.model, usage.runId) then 0
    else match measure
         case Cost => usage.actualCost.value
         case InputTokens => usage.inputTokens
         case OutputTokens => usage.outputTokens
  }

  function Amount(reservation: Reservation, measure: Measure): nat {
    match measure
    case Cost => reservation.cost
    case InputTokens => reservation.inputTokens
    case OutputTokens => reservation.outputTokens
  }

  function Held(reservation: Reservation, scope: Scope, measure: Measure): nat {
    if Covers(scope, reservation.provider, reservation.model, reservation.runId) then Amount(reservation, measure) else 0
  }

  function Committed(usages: seq<Usage>, scope: Scope, measure: Measure): nat {
    if usages == [] then 0
    else Committed(usages[..|usages| - 1], scope, measure) + Spent(usages[|usages| - 1], scope, measure)
  }

  function Outstanding(reservation: Reservation, settled: set<string>, scope: Scope, measure: Measure): nat {
    if reservation.reservationId in settled then 0 else Held(reservation, scope, measure)
  }

  /** What is held by the reservations whose identity is not in `settled`. */
  function Reserved(reservations: seq<Reservation>, settled: set<string>, scope: Scope, measure: Measure): nat {
    if reservations == [] then 0
    else Reserved(reservations[..|reservations| - 1], settled, scope, measure)
         + Outstanding(reservations[|reservations| - 1], settled, scope, measure)
  }

  function ResolvedIds(usages: seq<Usage>): set<string> {
    set u | u in usages && IsResolved(u) :: u.reservationId
  }

  function Settled(ledger: Ledger): set<string> {
    ledger.released + ResolvedIds(ledger.usages)
  }

  predicate IsActive(ledger: Ledger, reservation: Reservation) {
    reservation.reservationId !in ledger.released && reservation.reservationId !in ResolvedIds(ledger.usages)
  }

  /** Committed and actively reserved, together. */
  function Exposure(ledger: Ledger, scope: Scope, measure: Measure): nat {
    Committed(ledger.usages, scope, measure) + Reserved(ledger.reservations, Settled(ledger), scope, measure)
  }

  function RunCalls(reservations: seq<Reservation>, run: string): nat {
    if reservations == [] then 0
    else RunCalls(reservations[..|reservations| - 1], run) + if reservations[|reservations| - 1].runId == run then 1 else 0
  }

  /** The loop that accumulates the committed cost of a scope. */
  method CommittedFor(usages: seq<Usage>, scope: Scope) returns (total: nat)
    ensures total == Committed(usages, scope, Cost)
  {
    total := 0;
    for i := 0 to |usages|
      invariant total == Committed(usages[..i], scope, Cost)
    {
      var usage := usages[i];
      assert usages[..i + 1][..i] == usages[..i];
      if usage.actualCost.None? || (usage.reconciliation != Resolved && usage.reconciliation != ReconciledReleased) {
        continue;
      }
      if !Covers(scope, usage.provider, usage.model, usage.runId) { continue; }
      total := total + usage.actualCost.value;
    }
    assert usages[..|usages|] == usages;
  }

  /** The loop that accumulates the actively reserved cost of a scope. */
  method ReservedFor(ledger: Ledger, scope: Scope) returns (total: nat)
    ensures total == Reserved(ledger.reservations, Settled(ledger), scope, Cost)
  {
    total := 0;
    for i := 0 to |ledger.reservations|
      invariant total == Reserved(ledger.reservations[..i], Settled(ledger), scope, Cost)
    {
      var reservation := ledger.reservations[i];
      assert ledger.reservations[..i + 1][..i] == ledger.reservations[..i];
      if !IsActive(ledger, reservation) { continue; }
      if !Covers(scope, reservation.provider, reservation.model, reservation.runId) { continue; }
      total := total + reservation.cost;
    }
    assert ledger.reservations[..|ledger.reservations|] == ledger.reservations;
  }

  // ---------------------------------------------------------------- steps

  function EmptyLedger(policy: Policy): Ledger {
    Ledger(policy, 0, [], [], {}, Open, None)
  }

  /** What the constructor of a ledger value checks. */
  predicate WellFormed(ledger: Ledger) {
    && (forall i, j :: 0 <= i < j < |ledger.reservations| ==>
          ledger.reservations[i].reservationId != ledger.reservations[j].reservationId)
    && (forall i, j :: 0 <= i < j < |ledger.usages| ==> ledger.usages[i].usageId != ledger.usages[j].usageId)
    && (forall id :: id in ledger.released ==> exists i :: 0 <= i < |ledger.reservations| && ledger.reservations[i].reservationId == id)
  }

  function Spawned(ledger: Ledger): Outcome {
    var next := ledger.(sequence := ledger.sequence + 1);
    if WellFormed(next) then Ok(next) else Err(LedgerMalformed)
  }

  predicate SameKey(a: Reservation, b: Reservation) {
    a.reservationId == b.reservationId || (a.runId == b.runId && a.callId == b.callId)
  }

  function FirstSameKey(reservations: seq<Reservation>, reservation: Reservation): Option<Reservation> {
    if reservations == [] then None
    else if SameKey(reservations[0], reservation) then Some(reservations[0])
    else FirstSameKey(reservations[1..], reservation)
  }

  function ReservationError(ledger: Ledger, reservation: Reservation): Option<Error> {
    var policy := ledger.policy;
    if ledger.circuit != Open then Some(HardStopPreventsReservation)
    else if reservation.status != ReservationReserved then Some(NotReserved)
    else if reservation.policyId != policy.policyId then Some(PolicyMismatch)
    else if reservation.provider !in policy.allowedProviders then Some(ProviderNotAllowed)
    else if reservation.model !in policy.allowedModels then Some(ModelNotAllowed)
    else if ProviderOf(reservation.model) != Some(reservation.provider) then Some(ModelProviderMismatch)
    else if !(policy.startsAt <= reservation.reservedAt < policy.endsAt) then Some(OutsideWindow)
    else if reservation.expiresAt > policy.endsAt then Some(ExpiresAfterWindow)
    else if Exposure(ledger, Everything, Cost) + reservation.cost > policy.totalCap then Some(TotalCapExceeded)
    else if Exposure(ledger, OfProvider(reservation.provider), Cost) + reservation.cost
            > policy.ProviderCap(reservation.provider) then Some(ProviderCapExceeded)
    else if Exposure(ledger, OfModel(reservation.model), Cost) + reservation.cost
            > policy.ModelCap(reservation.model) then Some(ModelCapExceeded)
    else if Exposure(ledger, OfRun(reservation.runId), Cost) + reservation.cost > policy.runCap then Some(RunCapExceeded)
    else if |ledger.reservations| + 1 > policy.maxCalls then Some(CallCountExceeded)
    else if RunCalls(ledger.reservations, reservation.runId) + 1 > policy.maxCallsPerRun then Some(RunCallCountExceeded)
    else if reservation.inputTokens + reservation.outputTokens > policy.maxTokensPerCall then Some(CallTokensExceeded)
    else if Exposure(ledger, Everything, InputTokens) + reservation.inputTokens > policy.maxInputTokens then
      Some(InputTokensExceeded)
    else if Exposure(ledger, Everything, OutputTokens) + reservation.outputTokens > policy.maxOutputTokens then
      Some(OutputTokensExceeded)
    else None
  }

  function ReserveCall(ledger: Ledger, reservation: Reservation): Outcome {
    match FirstSameKey(ledger.reservations, reservation)
    case Some(existing) => if existing == reservation then Ok(ledger) else Err(ConflictingDuplicate)
    case None =>
      match ReservationError(ledger, reservation)
      case Some(error) => Err(error)
      case None =>
        Spawned(ledger.(reservations := ledger.reservations + [reservation], updatedAt := Some(reservation.reservedAt)))
  }

  function Find(reservations: seq<Reservation>, id: string): Option<Reservation> {
    if reservations == [] then None
    else if reservations[0].reservationId == id then Some(reservations[0])
    else Find(reservations[1..], id)
  }

  predicate HasUsage(usages: seq<Usage>, id: string) {
    exists i :: 0 <= i < |usages| && usages[i].reservationId == id
  }

  predicate HasUsageRecord(usages: seq<Usage>, usageId: string) {
    exists i :: 0 <= i < |usages| && usages[i].usageId == usageId
  }

  predicate Binds(reservation: Reservation, usage: Usage) {
    && reservation.reservationId == usage.reservationId && reservation.policyId == usage.policyId
    && reservation.runId == usage.runId && reservation.callId == usage.callId
    && reservation.provider == usage.provider && reservation.model == usage.model
  }

  /** What commit and reconciliation both refuse. */
  function UsageError(ledger: Ledger, usage: Usage): Option<Error> {
    if HasUsageRecord(ledger.usages, usage.usageId) then Some(DuplicateUsage)
    else match Find(ledger.reservations, usage.reservationId)
         case None => Some(ReservationNotFound)
         case Some(reservation) =>
           if !Binds(reservation, usage) then Some(BindingMismatch)
           else if reservation.reservationId in ledger.released then Some(AlreadyReleased)
           else if HasUsage(ledger.usages, reservation.reservationId) then Some(AlreadyUsed)
           else None
  }

  function CommitUsage(ledger: Ledger, usage: Usage): Outcome {
    match UsageError(ledger, usage)
    case Some(error) => Err(error)
    case None =>
      var reservation := Find(ledger.reservations, usage.reservationId).value;
      if usage.outcome != Success || usage.reconciliation != Resolved then Err(NotResolvedSuccess)
      else if usage.actualCost.None? || usage.actualCost.value > reservation.cost
           || usage.estimatedCost > reservation.cost
           || usage.inputTokens > reservation.inputTokens
           || usage.outputTokens > reservation.outputTokens then Err(ExceedsReservation)
      else if usage.startedAt < reservation.reservedAt || usage.completedAt > reservation.expiresAt then
        Err(OutsideReservation)
      else Spawned(ledger.(usages := ledger.usages + [usage], updatedAt := Some(usage.completedAt)))
  }

  function ReleaseReservation(ledger: Ledger, id: string): Outcome {
    match Find(ledger.reservations, id)
    case None => Err(ReservationNotFound)
    case Some(reservation) =>
      if id in ledger.released then Ok(ledger)
      else if HasUsage(ledger.usages, id) then Err(AlreadyUsed)
      else Spawned(ledger.(released := ledger.released + {id}, updatedAt := Some(reservation.reservedAt)))
  }

  function ReconcileUncertainUsage(ledger: Ledger, usage: Usage): Outcome {
    match UsageError(ledger, usage)
    case Some(error) => Err(error)
    case None =>
      if usage.actualCost.Some? || usage.reconciliation != ReconciliationNeeded || !usage.uncertainTransport
         || (usage.outcome != Timeout && usage.outcome != TransportFailure) then Err(NotUncertain)
      else Spawned(ledger.(usages := ledger.usages + [usage], circuit := ReconciliationRequired,
                           updatedAt := Some(usage.completedAt)))
  }

  function ActivateHardStop(ledger: Ledger, reason: string): Outcome {
    if reason !in ledger.policy.stopConditions then Err(StopReasonUnsupported)
    else if ledger.circuit == HardStop then Ok(ledger)
    else Spawned(ledger.(circuit := HardStop,
                         updatedAt := if ledger.updatedAt.Some? then ledger.updatedAt else Some(ledger.policy.startsAt)))
  }

  datatype Authorization = Allowed(reservationId: string) | Denied(reason: Denial)
  datatype Denial = PolicyInactive | OwnerApprovalMissing | HardStopActive | ProviderDenied | ModelDenied | NoReservation

  predicate Authorizes(ledger: Ledger, reservation: Reservation, provider: Provider, model: Model, run: string,
                       call: string) {
    && IsActive(ledger, reservation) && reservation.status == ReservationReserved
    && reservation.provider == provider && reservation.model == model
    && reservation.runId == run && reservation.callId == call
  }

  function FirstAuthorizing(ledger: Ledger, reservations: seq<Reservation>, provider: Provider, model: Model,
                            run: string, call: string): Option<Reservation>
  {
    if reservations == [] then None
    else if Authorizes(ledger, reservations[0], provider, model, run, call) then Some(reservations[0])
    else FirstAuthorizing(ledger, reservations[1..], provider, model, run, call)
  }

  function EvaluateCallAuthorization(ledger: Ledger, provider: Provider, model: Model, run: string,
                                     call: string): Authorization {
    if ledger.policy.status != PolicyActive then Denied(PolicyInactive)
    else if ledger.policy.ownerApproval.None? then Denied(OwnerApprovalMissing)
    else if ledger.circuit != Open then Denied(HardStopActive)
    else if provider !in ledger.policy.allowedProviders then Denied(ProviderDenied)
    else if model !in ledger.policy.allowedModels || ProviderOf(model) != Some(provider) then Denied(ModelDenied)
    else match FirstAuthorizing(ledger, ledger.reservations, provider, model, run, call)
         case Some(reservation) => Allowed(reservation.reservationId)
         case None => Denied(NoReservation)
  }

  datatype Op =
    | Reserve(reservation: Reservation) | Commit(usage: Usage) | Release(id: string)
    | ReconcileUncertain(usage: Usage) | Stop(reason: string)

  function Apply(ledger: Ledger, op: Op): Outcome {
    match op
    case Reserve(reservation) => ReserveCall(ledger, reservation)
    case Commit(usage) => CommitUsage(ledger, usage)
    case Release(id) => ReleaseReservation(ledger, id)
    case ReconcileUncertain(usage) => ReconcileUncertainUsage(ledger, usage)
    case Stop(reason) => ActivateHardStop(ledger, reason)
  }

  function Next(ledger: Ledger, op: Op): Ledger {
    match Apply(ledger, op)
    case Ok(next) => next
    case Err(_) => ledger
  }

  function Run(ledger: Ledger, ops: seq<Op>): Ledger
    decreases |ops|
  {
    if ops == [] then ledger else Next(Run(ledger, ops[..|ops| - 1]), ops[|ops| - 1])
  }
}
