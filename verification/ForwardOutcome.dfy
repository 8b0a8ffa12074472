/** The forward-outcome resolver: it opens a resolution artifact for an entry snapshot and fills
    in, run after run, the 4, 8 and 12 hour outcomes that have come due.  Times are integer
    seconds, prices and percentages are reals, and the market is what a fetch would return for
    each symbol (a symbol outside it is a fetch that fails). */
module ForwardOutcome {
  import opened Wrappers

  const FOUR_HOURS: int := 14400

  /** The instant `k` four-hour candles after another. */
  function Later(instant: int, k: int): int { instant + k * 14400 }

  const RESOLUTION_TYPE := "v4_forward_outcome_resolution"
  const ENTRY_TYPE := "v4_outcome_tracker_entry"
  const ENTRY_PREFIX := "outcome_entry_v4_"

  datatype Horizon = H4 | H8 | H12 | OtherHorizon(name: string)
  datatype Trend = Uptrend | Downtrend | OtherTrend

  datatype Candle = Candle(timestamp: int, high: real, low: real, close: real)
  type Market = map<string, seq<Candle>>

  datatype HorizonResult = HorizonResult(
    horizon: Horizon, targetAt: int, returnPrice: real, returnPct: real,
    mfePrice: real, mfePct: real, maePrice: real, maePct: real)

  datatype EntryCandidate = EntryCandidate(symbol: string, referencePrice: real, referenceCandleAt: int, trend: Trend)

  datatype Entry = Entry(name: string, snapshotType: string, schemaVersion: int, capturedAt: int,
                         candidates: seq<EntryCandidate>)

  datatype CandidateState = CandidateState(symbol: string, referencePrice: real, resolved: map<Horizon, HorizonResult>)

  datatype Resolution = Resolution(
    snapshotType: string, schemaVersion: int, entryArtifact: string, entrySnapshotType: string, entrySchemaVersion: int,
    entryCapturedAt: int, referenceCandleAt: int, candidates: seq<CandidateState>)

  datatype Error =
    | InvalidSnapshotType | InvalidSchemaVersion | NoCandidates | ReferenceNotShared | InvalidEntryName
    | IdentityMismatch | CandidateCountMismatch | SymbolMismatch | ReferencePriceMismatch
    | UnknownHorizon | HorizonIdentityMismatch
    | MarketUnavailable | DuplicateTimestamps | WindowCountMismatch | WindowSetMismatch
    | HorizonCountMismatch | EmptyWindow | NonPositivePrice | ConflictingHorizon(horizon: Horizon)

  // ---------------------------------------------------------------- the artifact

  predicate SharesReference(candidates: seq<EntryCandidate>) {
    forall i :: 0 <= i < |candidates| ==> candidates[i].referenceCandleAt == candidates[0].referenceCandleAt
  }

  function Fresh(candidates: seq<EntryCandidate>): (states: seq<CandidateState>)
    ensures |states| == |candidates|
    ensures forall i :: 0 <= i < |states| ==>
              states[i] == CandidateState(candidates[i].symbol, candidates[i].referencePrice, map[])
  {
    if candidates == [] then []
    else Fresh(candidates[..|candidates| - 1])
         + [CandidateState(candidates[|candidates| - 1].symbol, candidates[|candidates| - 1].referencePrice, map[])]
  }

  function InitialState(entry: Entry): Result<Resolution, Error> {
    if entry.snapshotType != ENTRY_TYPE then Err(InvalidSnapshotType)
    else if entry.schemaVersion != 1 then Err(InvalidSchemaVersion)
    else if entry.candidates == [] then Err(NoCandidates)
    else if !SharesReference(entry.candidates) then Err(ReferenceNotShared)
    else Ok(Resolution(RESOLUTION_TYPE, 1, entry.name, entry.snapshotType, entry.schemaVersion, entry.capturedAt,
                       entry.candidates[0].referenceCandleAt, Fresh(entry.candidates)))
  }

  predicate IsKnown(horizon: Horizon) { !horizon.OtherHorizon? }

  function CandidateError(existing: CandidateState, expected: CandidateState): Option<Error> {
    if existing.symbol != expected.symbol then Some(SymbolMismatch)
    else if existing.referencePrice != expected.referencePrice then Some(ReferencePriceMismatch)
    else if exists h :: h in existing.resolved && !IsKnown(h) then Some(UnknownHorizon)
    else if exists h :: h in existing.resolved && existing.resolved[h].horizon != h then Some(HorizonIdentityMismatch)
    else None
  }

  function CandidatesError(existing: seq<CandidateState>, expected: seq<CandidateState>): Option<Error>
    requires |existing| == |expected|
  {
    if existing == [] then None
    else match CandidateError(existing[0], expected[0])
         case Some(error) => Some(error)
         case None => CandidatesError(existing[1..], expected[1..])
  }

  function ExistingError(existing: Resolution, expected: Resolution): Option<Error> {
    if existing.(candidates := expected.candidates) != expected then Some(IdentityMismatch)
    else if |existing.candidates| != |expected.candidates| then Some(CandidateCountMismatch)
    else CandidatesError(existing.candidates, expected.candidates)
  }

  predicate NamedAsEntry(entry: Entry) { ENTRY_PREFIX <= entry.name }

  /** The state a run starts from: the artifact already there, or a new one. */
  function StartState(artifact: Option<Resolution>, entry: Entry): Result<Resolution, Error> {
    match InitialState(entry)
    case Err(error) => Err(error)
    case Ok(initial) =>
      if !NamedAsEntry(entry) then Err(InvalidEntryName)
      else match artifact
           case None => Ok(initial)
           case Some(existing) =>
             match ExistingError(existing, initial)
             case Some(error) => Err(error)
             case None => Ok(existing)
  }

  // ---------------------------------------------------------------- horizons

  function Rank(horizon: Horizon): nat {
    match horizon case H4 => 1 case H8 => 2 case H12 => 3 case OtherHorizon(_) => 0
  }

  function ReferenceClose(reference: int): int { reference + FOUR_HOURS }

  /** The contract of a horizon: when it is due, and how many candles it takes. */
  function TargetAt(reference: int, horizon: Horizon): int { Later(ReferenceClose(reference), Rank(horizon)) }

  function Contracts(): (horizons: seq<Horizon>) { [H4, H8, H12] }

  predicate IsDue(resolved: map<Horizon, HorizonResult>, reference: int, now: int, horizon: Horizon) {
    horizon !in resolved && now >= TargetAt(reference, horizon)
  }

  function Unresolved(horizons: seq<Horizon>, resolved: map<Horizon, HorizonResult>, reference: int,
                      now: int): seq<Horizon> {
    if horizons == [] then []
    else
      var last := horizons[|horizons| - 1];
      Unresolved(horizons[..|horizons| - 1], resolved, reference, now)
      + if IsDue(resolved, reference, now, last) then [last] else []
  }

  /** The due and unresolved horizons by symbol; a later candidate of the same symbol overrides. */
  function Eligible(candidates: seq<CandidateState>, reference: int, now: int): map<string, seq<Horizon>> {
    if candidates == [] then map[]
    else
      var last := candidates[|candidates| - 1];
      var before := Eligible(candidates[..|candidates| - 1], reference, now);
      var unresolved := Unresolved(Contracts(), last.resolved, reference, now);
      if unresolved == [] then before else before[last.symbol := unresolved]
  }

  method GetEligibleUnresolvedHorizons(candidates: seq<CandidateState>, reference: int, now: int)
    returns (eligible: map<string, seq<Horizon>>)
    ensures eligible == Eligible(candidates, reference, now)
  {
    eligible := map[];
    var contracts := Contracts();
    for i := 0 to |candidates|
      invariant eligible == Eligible(candidates[..i], reference, now)
    {
      var unresolved := [];
      for j := 0 to |contracts|
        invariant unresolved == Unresolved(contracts[..j], candidates[i].resolved, reference, now)
      {
        assert contracts[..j + 1][..j] == contracts[..j];
        if contracts[j] in candidates[i].resolved { continue; }
        if now >= TargetAt(reference, contracts[j]) { unresolved := unresolved + [contracts[j]]; }
      }
      assert contracts[..|contracts|] == contracts && candidates[..i + 1][..i] == candidates[..i];
      if unresolved != [] { eligible := eligible[candidates[i].symbol := unresolved]; }
    }
    assert candidates[..|candidates|] == candidates;
  }

  // ---------------------------------------------------------------- the candle window

  /** The opens of the whole four-hour candles between two instants. */
  function Opens(cursor: int, target: int): seq<int>
    decreases target - cursor
  {
    if cursor + FOUR_HOURS <= target then [cursor] + Opens(cursor + FOUR_HOURS, target) else []
  }

  predicate HasDuplicates(candles: seq<Candle>) {
    exists i, j :: 0 <= i < j < |candles| && candles[i].timestamp == candles[j].timestamp
  }

  /** The rows whose timestamp is listed, in the order of the frame. */
  function Rows(candles: seq<Candle>, opens: seq<int>): seq<Candle> {
    if candles == [] then []
    else
      var last := candles[|candles| - 1];
      Rows(candles[..|candles| - 1], opens) + if last.timestamp in opens then [last] else []
  }

  function Stamps(candles: seq<Candle>): (stamps: seq<int>)
    ensures |stamps| == |candles| && forall i :: 0 <= i < |stamps| ==> stamps[i] == candles[i].timestamp
  {
    if candles == [] then [] else Stamps(candles[..|candles| - 1]) + [candles[|candles| - 1].timestamp]
  }

  function Window(candles: seq<Candle>, close: int, target: int): Result<seq<Candle>, Error> {
    var opens := Opens(close, target);
    var rows := Rows(candles, opens);
    if HasDuplicates(candles) then Err(DuplicateTimestamps)
    else if |rows| != |opens| then Err(WindowCountMismatch)
    else if Stamps(rows) != opens then Err(WindowSetMismatch)
    else Ok(rows)
  }

  method SelectExactClosedCandleWindow(candles: seq<Candle>, close: int, target: int)
    returns (window: Result<seq<Candle>, Error>)
    ensures window == Window(candles, close, target)
    ensures window.Ok? ==> Stamps(window.value) == Opens(close, target)
  {
    var expected: seq<int> := [];
    var cursor := close;
    while cursor + FOUR_HOURS <= target
      invariant expected + Opens(cursor, target) == Opens(close, target)
      decreases target - cursor
    {
      assert expected + Opens(cursor, target) == expected + [cursor] + Opens(cursor + FOUR_HOURS, target);
      expected := expected + [cursor];
      cursor := cursor + FOUR_HOURS;
    }
    assert Opens(cursor, target) == [] && expected == Opens(close, target);
    if HasDuplicates(candles) { return Err(DuplicateTimestamps); }
    var rows := Rows(candles, expected);
    if |rows| != |expected| { return Err(WindowCountMismatch); }
    if Stamps(rows) != expected { return Err(WindowSetMismatch); }
    return Ok(rows);
  }

  // ---------------------------------------------------------------- the result of a horizon

  function MaxHigh(window: seq<Candle>): real
    requires window != []
  {
    var last := window[|window| - 1].high;
    if |window| == 1 then last
    else var rest := MaxHigh(window[..|window| - 1]); if last > rest then last else rest
  }

  function MinLow(window: seq<Candle>): real
    requires window != []
  {
    var last := window[|window| - 1].low;
    if |window| == 1 then last
    else var rest := MinLow(window[..|window| - 1]); if last < rest then last else rest
  }

  function Percent(price: real, reference: real): real
    requires reference > 0.0
  {
    (price / reference - 1.0) * 100.0
  }

  function HorizonOutcome(window: seq<Candle>, price: real, horizon: Horizon,
                          target: int): Result<HorizonResult, Error> {
    if window == [] then Err(EmptyWindow)
    else if price <= 0.0 then Err(NonPositivePrice)
    else
      var last := window[|window| - 1].close;
      Ok(HorizonResult(horizon, target, last, Percent(last, price), MaxHigh(window), Percent(MaxHigh(window), price),
                       MinLow(window), Percent(MinLow(window), price)))
  }

  /** The result of one horizon from a fetched frame. */
  function Computation(candles: seq<Candle>, price: real, reference: int,
                       horizon: Horizon): Result<HorizonResult, Error> {
    match Window(candles, ReferenceClose(reference), TargetAt(reference, horizon))
    case Err(error) => Err(error)
    case Ok(window) =>
      if |window| != Rank(horizon) then Err(HorizonCountMismatch)
      else HorizonOutcome(window, price, horizon, TargetAt(reference, horizon))
  }

  function Computations(candles: seq<Candle>, price: real, reference: int, horizons: seq<Horizon>)
    : Result<seq<HorizonResult>, Error>
  {
    if horizons == [] then Ok([])
    else match Computations(candles, price, reference, horizons[..|horizons| - 1])
         case Err(error) => Err(error)
         case Ok(results) =>
           match Computation(candles, price, reference, horizons[|horizons| - 1])
           case Err(error) => Err(error)
           case Ok(result) => Ok(results + [result])
  }

  // ---------------------------------------------------------------- merging

  datatype Merge = Merge(resolved: map<Horizon, HorizonResult>, added: nat)

  function MergeOnce(resolved: map<Horizon, HorizonResult>, result: HorizonResult): Result<Merge, Error> {
    if result.horizon !in resolved then Ok(Merge(resolved[result.horizon := result], 1))
    else if resolved[result.horizon] == result then Ok(Merge(resolved, 0))
    else Err(ConflictingHorizon(result.horizon))
  }

  function MergeAll(resolved: map<Horizon, HorizonResult>, results: seq<HorizonResult>): Result<Merge, Error> {
    if results == [] then Ok(Merge(resolved, 0))
    else match MergeAll(resolved, results[..|results| - 1])
         case Err(error) => Err(error)
         case Ok(before) =>
           match MergeOnce(before.resolved, results[|results| - 1])
           case Err(error) => Err(error)
           case Ok(after) => Ok(Merge(after.resolved, before.added + after.added))
  }

  function ResolveCandidate(candidate: CandidateState, eligible: map<string, seq<Horizon>>, market: Market,
                            reference: int)
    : Result<Merge, Error>
  {
    if candidate.symbol !in eligible then Ok(Merge(candidate.resolved, 0))
    else if candidate.symbol !in market then Err(MarketUnavailable)
    else match Computations(market[candidate.symbol], candidate.referencePrice, reference, eligible[candidate.symbol])
         case Err(error) => Err(error)
         case Ok(results) => MergeAll(candidate.resolved, results)
  }

  datatype Progress = Progress(candidates: seq<CandidateState>, added: nat)

  function ResolveCandidates(candidates: seq<CandidateState>, eligible: map<string, seq<Horizon>>, market: Market,
                             reference: int)
    : Result<Progress, Error>
  {
    if candidates == [] then Ok(Progress([], 0))
    else
      var last := candidates[|candidates| - 1];
      match ResolveCandidates(candidates[..|candidates| - 1], eligible, market, reference)
      case Err(error) => Err(error)
      case Ok(before) =>
        match ResolveCandidate(last, eligible, market, reference)
        case Err(error) => Err(error)
        case Ok(merge) => Ok(Progress(before.candidates + [last.(resolved := merge.resolved)],
                                      before.added + merge.added))
  }

  // ---------------------------------------------------------------- a run

  datatype Summary = Summary(changed: bool, added: nat)

  /** What a run leaves behind, and what it reports. */
  datatype RunOutcome = RunOutcome(artifact: Option<Resolution>, report: Result<Summary, Error>)

  function ResolveFrom(artifact: Option<Resolution>, start: Resolution, market: Market, now: int): RunOutcome {
    var eligible := Eligible(start.candidates, start.referenceCandleAt, now);
    if eligible == map[] then RunOutcome(Some(start), Ok(Summary(false, 0)))
    else match ResolveCandidates(start.candidates, eligible, market, start.referenceCandleAt)
         case Err(error) => RunOutcome(artifact, Err(error))
         case Ok(progress) =>
           RunOutcome(if progress.added > 0 then Some(start.(candidates := progress.candidates)) else artifact,
                      Ok(Summary(progress.added > 0, progress.added)))
  }

  function Resolve(artifact: Option<Resolution>, entry: Entry, market: Market, now: int): RunOutcome {
    match StartState(artifact, entry)
    case Err(error) => RunOutcome(artifact, Err(error))
    case Ok(start) => ResolveFrom(artifact, start, market, now)
  }

  method MergeHorizonOnce(resolved: map<Horizon, HorizonResult>, result: HorizonResult)
    returns (merged: map<Horizon, HorizonResult>, added: Result<bool, Error>)
    ensures match MergeOnce(resolved, result)
            case Ok(merge) => merged == merge.resolved && added == Ok(merge.added == 1)
            case Err(error) => merged == resolved && added == Err(error)
  {
    merged := resolved;
    if result.horizon !in merged {
      merged := merged[result.horizon := result];
      added := Ok(true);
    } else if merged[result.horizon] == result {
      added := Ok(false);
    } else {
      added := Err(ConflictingHorizon(result.horizon));
    }
  }

  /** The pending results of one candidate, computed before any of them is merged. */
  method CalculatePending(candles: seq<Candle>, price: real, reference: int, horizons: seq<Horizon>)
    returns (pending: Result<seq<HorizonResult>, Error>)
    ensures pending == Computations(candles, price, reference, horizons)
  {
    var results: seq<HorizonResult> := [];
    for i := 0 to |horizons|
      invariant Computations(candles, price, reference, horizons[..i]) == Ok(results)
    {
      var target := TargetAt(reference, horizons[i]);
      assert horizons[..i + 1][..i] == horizons[..i];
      var window := SelectExactClosedCandleWindow(candles, ReferenceClose(reference), target);
      if window.Ok? && |window.value| == Rank(horizons[i])
         && HorizonOutcome(window.value, price, horizons[i], target).Ok?
      {
        results := results + [HorizonOutcome(window.value, price, horizons[i], target).value];
      } else {
        ComputationsFail(candles, price, reference, horizons, i + 1);
        return Err(Computation(candles, price, reference, horizons[i]).error);
      }
    }
    assert horizons[..|horizons|] == horizons;
    return Ok(results);
  }

  lemma {:induction false} ComputationsFail(candles: seq<Candle>, price: real, reference: int, horizons: seq<Horizon>,
                                            n: nat)
    requires n <= |horizons| && Computations(candles, price, reference, horizons[..n]).Err?
    ensures Computations(candles, price, reference, horizons) == Computations(candles, price, reference, horizons[..n])
  {
    if n < |horizons| {
      var shorter := horizons[..|horizons| - 1];
      assert shorter[..n] == horizons[..n];
      ComputationsFail(candles, price, reference, shorter, n);
    } else {
      assert horizons[..n] == horizons;
    }
  }

  lemma {:induction false} MergeAllFail(resolved: map<Horizon, HorizonResult>, results: seq<HorizonResult>, n: nat)
    requires n <= |results| && MergeAll(resolved, results[..n]).Err?
    ensures MergeAll(resolved, results) == MergeAll(resolved, results[..n])
  {
    if n < |results| {
      var shorter := results[..|results| - 1];
      assert shorter[..n] == results[..n];
      MergeAllFail(resolved, shorter, n);
    } else {
      assert results[..n] == results;
    }
  }

  /** Merges every pending result into one candidate, or puts the candidate back as it was. */
  method MergePending(resolved: map<Horizon, HorizonResult>, pending: seq<HorizonResult>)
    returns (merged: map<Horizon, HorizonResult>, added: Result<nat, Error>)
    ensures match MergeAll(resolved, pending)
            case Ok(merge) => merged == merge.resolved && added == Ok(merge.added)
            case Err(error) => merged == resolved && added == Err(error)
  {
    merged := resolved;
    var count := 0;
    for i := 0 to |pending|
      invariant MergeAll(resolved, pending[..i]) == Ok(Merge(merged, count))
    {
      assert pending[..i + 1][..i] == pending[..i];
      var isNew;
      merged, isNew := MergeHorizonOnce(merged, pending[i]);
      if isNew.Err? {
        MergeAllFail(resolved, pending, i + 1);
        merged := resolved;
        return merged, Err(isNew.error);
      }
      if isNew.value { count := count + 1; }
    }
    assert pending[..|pending|] == pending;
    added := Ok(count);
  }

  lemma {:induction false} ResolveCandidatesFail(candidates: seq<CandidateState>, eligible: map<string, seq<Horizon>>,
                                                 market: Market, reference: int, n: nat)
    requires n <= |candidates| && ResolveCandidates(candidates[..n], eligible, market, reference).Err?
    ensures ResolveCandidates(candidates, eligible, market, reference)
         == ResolveCandidates(candidates[..n], eligible, market, reference)
  {
    if n < |candidates| {
      var shorter := candidates[..|candidates| - 1];
      assert shorter[..n] == candidates[..n];
      ResolveCandidatesFail(shorter, eligible, market, reference, n);
    } else {
      assert candidates[..n] == candidates;
    }
  }

  /** One candidate of the working copy: everything due for it, or an error that leaves it alone. */
  method ResolveOne(candidate: CandidateState, eligible: map<string, seq<Horizon>>, market: Market, reference: int)
    returns (next: CandidateState, count: Result<nat, Error>)
    ensures match ResolveCandidate(candidate, eligible, market, reference)
            case Ok(merge) => next == candidate.(resolved := merge.resolved) && count == Ok(merge.added)
            case Err(error) => next == candidate && count == Err(error)
  {
    next := candidate;
    if candidate.symbol !in eligible { return next, Ok(0); }
    if candidate.symbol !in market { return next, Err(MarketUnavailable); }
    var candles, horizons := market[candidate.symbol], eligible[candidate.symbol];
    var pending := CalculatePending(candles, candidate.referencePrice, reference, horizons);
    if pending.Err? { return next, Err(pending.error); }
    var merged;
    merged, count := MergePending(candidate.resolved, pending.value);
    next := candidate.(resolved := merged);
  }

  /** Resolves the candidates of the working copy one after another. */
  method ResolveWorkingCopy(candidates: seq<CandidateState>, eligible: map<string, seq<Horizon>>, market: Market,
                            reference: int)
    returns (progress: Result<Progress, Error>)
    ensures progress == ResolveCandidates(candidates, eligible, market, reference)
  {
    var working := candidates;
    var added := 0;
    for i := 0 to |candidates|
      invariant |working| == |candidates| && forall k :: i <= k < |candidates| ==> working[k] == candidates[k]
      invariant ResolveCandidates(candidates[..i], eligible, market, reference) == Ok(Progress(working[..i], added))
    {
      assert candidates[..i + 1][..i] == candidates[..i];
      ghost var before := working;
      var next, count := ResolveOne(working[i], eligible, market, reference);
      working := working[i := next];
      if count.Err? {
        ResolveCandidatesFail(candidates, eligible, market, reference, i + 1);
        return Err(count.error);
      }
      added := added + count.value;
      assert working[..i + 1] == before[..i] + [working[i]];
    }
    assert candidates[..|candidates|] == candidates && working[..|candidates|] == working;
    return Ok(Progress(working, added));
  }

  /** The artifact beside one entry snapshot. */
  class ResolutionFile {
    var artifact: Option<Resolution>

    constructor ()
      ensures artifact == None
    {
      artifact := None;
    }

    /** One run: everything that is due is filled in for every candidate, or nothing is written. */
    method ResolveEntryArtifact(entry: Entry, market: Market, now: int) returns (report: Result<Summary, Error>)
      modifies this
      ensures RunOutcome(artifact, report) == Resolve(old(artifact), entry, market, now)
      ensures report.Err? ==> artifact == old(artifact)
    {
      var start := StartState(artifact, entry);
      if start.Err? { return Err(start.error); }
      var state := start.value;
      var eligible := GetEligibleUnresolvedHorizons(state.candidates, state.referenceCandleAt, now);
      if eligible == map[] {
        if artifact.None? { artifact := Some(state); }
        return Ok(Summary(false, 0));
      }
      var progress := ResolveWorkingCopy(state.candidates, eligible, market, state.referenceCandleAt);
      if progress.Err? { return Err(progress.error); }
      if progress.value.added > 0 { artifact := Some(state.(candidates := progress.value.candidates)); }
      return Ok(Summary(progress.value.added > 0, progress.value.added));
    }
  }
}
