/** Whole histories of the forward resolver: the horizons of an artifact are always the first few
    of h4, h8, h12 and the same for every candidate; a run fills in everything due or nothing;
    and when two runs amount to one. */
module ForwardRuns {
  import opened Wrappers
  import opened ForwardOutcome
  import opened ForwardWindows

  // ---------------------------------------------------------------- levels

  /** The first n horizons. */
  function First(n: nat): set<Horizon> {
    if n == 0 then {} else if n == 1 then {H4} else if n == 2 then {H4, H8} else {H4, H8, H12}
  }

  /** How many horizons are due. */
  function Due(reference: int, now: int): (n: nat)
    ensures n <= 3
  {
    if now >= TargetAt(reference, H12) then 3 else if now >= TargetAt(reference, H8) then 2
    else if now >= TargetAt(reference, H4) then 1 else 0
  }

  /** The n-th horizon. */
  function Nth(n: nat): Horizon { if n <= 1 then H4 else if n == 2 then H8 else H12 }

  predicate EntryAccepted(entry: Entry) { InitialState(entry).Ok? && NamedAsEntry(entry) }

  ghost predicate ResolvedTo(resolved: map<Horizon, HorizonResult>, reference: int, n: nat) {
    && resolved.Keys == First(n)
    && forall h :: h in resolved ==> resolved[h].horizon == h && resolved[h].targetAt == TargetAt(reference, h)
  }

  /** The candidate states of an entry, each resolved to the same n horizons. */
  ghost predicate CandidatesAt(candidates: seq<CandidateState>, entry: Entry, reference: int, n: nat) {
    && |candidates| == |entry.candidates|
    && forall i :: 0 <= i < |candidates| ==>
         && candidates[i].symbol == entry.candidates[i].symbol
         && candidates[i].referencePrice == entry.candidates[i].referencePrice
         && ResolvedTo(candidates[i].resolved, reference, n)
  }

  ghost predicate StateAt(state: Resolution, entry: Entry, n: nat) {
    && EntryAccepted(entry) && n <= 3
    && state.(candidates := []) == InitialState(entry).value.(candidates := [])
    && CandidatesAt(state.candidates, entry, state.referenceCandleAt, n)
  }

  /** An artifact, or none yet, at the n-th level. */
  ghost predicate At(artifact: Option<Resolution>, entry: Entry, n: nat) {
    match artifact
    case None => EntryAccepted(entry) && n == 0
    case Some(state) => StateAt(state, entry, n)
  }

  function Reference(entry: Entry): int { if entry.candidates == [] then 0 else entry.candidates[0].referenceCandleAt }

  lemma {:induction false} NoCandidatesError(existing: seq<CandidateState>, expected: seq<CandidateState>)
    requires |existing| == |expected|
    requires forall i :: 0 <= i < |existing| ==> CandidateError(existing[i], expected[i]).None?
    ensures CandidatesError(existing, expected).None?
  {
    if existing != [] { NoCandidatesError(existing[1..], expected[1..]); }
  }

  /** The state a run works on: the artifact, or the initial state of the entry. */
  function Opened(artifact: Option<Resolution>, entry: Entry): Resolution
    requires artifact.None? ==> InitialState(entry).Ok?
  {
    match artifact case Some(state) => state case None => InitialState(entry).value
  }

  /** The resolver accepts its own artifacts, and a new one starts with nothing resolved. */
  lemma StartAt(artifact: Option<Resolution>, entry: Entry, n: nat)
    requires At(artifact, entry, n)
    ensures StartState(artifact, entry) == Ok(Opened(artifact, entry))
    ensures StateAt(Opened(artifact, entry), entry, n) && Opened(artifact, entry).referenceCandleAt == Reference(entry)
  {
    if artifact.Some? {
      var existing, initial := artifact.value, InitialState(entry).value;
      forall i | 0 <= i < |existing.candidates|
        ensures CandidateError(existing.candidates[i], initial.candidates[i]).None?
      {
        assert ResolvedTo(existing.candidates[i].resolved, existing.referenceCandleAt, n);
      }
      NoCandidatesError(existing.candidates, initial.candidates);
    }
  }

  // ---------------------------------------------------------------- what is eligible

  lemma UnresolvedIs(resolved: map<Horizon, HorizonResult>, reference: int, now: int, n: nat)
    requires n <= 3 && resolved.Keys == First(n)
    ensures Unresolved(Contracts(), resolved, reference, now)
         == if Due(reference, now) <= n then [] else Contracts()[n..Due(reference, now)]
  {
    assert Contracts()[..2] == [H4, H8] && Contracts()[..2][..1] == [H4] && Contracts()[..2][..1][..0] == [];
    assert Unresolved([], resolved, reference, now) == [];
    assert Unresolved([H4], resolved, reference, now) == if n < 1 <= Due(reference, now) then [H4] else [];
    assert Unresolved([H4, H8], resolved, reference, now)
        == Unresolved([H4], resolved, reference, now) + if n < 2 <= Due(reference, now) then [H8] else [];
  }

  lemma {:induction false} EligibleIs(candidates: seq<CandidateState>, reference: int, now: int, n: nat)
    requires n <= 3 && forall i :: 0 <= i < |candidates| ==> candidates[i].resolved.Keys == First(n)
    ensures Due(reference, now) <= n ==> Eligible(candidates, reference, now) == map[]
    ensures Due(reference, now) > n ==>
              forall i :: 0 <= i < |candidates| ==>
                && candidates[i].symbol in Eligible(candidates, reference, now)
                && Eligible(candidates, reference, now)[candidates[i].symbol] == Contracts()[n..Due(reference, now)]
    ensures Due(reference, now) > n ==>
              forall s :: s in Eligible(candidates, reference, now) ==>
                Eligible(candidates, reference, now)[s] == Contracts()[n..Due(reference, now)]
  {
    if candidates != [] {
      EligibleIs(candidates[..|candidates| - 1], reference, now, n);
      UnresolvedIs(candidates[|candidates| - 1].resolved, reference, now, n);
    }
  }

  // ---------------------------------------------------------------- one candidate

  /** The market can complete the first d horizons of a candidate. */
  predicate Available(symbol: string, price: real, market: Market, reference: int, d: nat) {
    symbol in market && Computation(market[symbol], price, reference, Nth(d)).Ok?
  }

  lemma {:induction false} ComputationsAre(candles: seq<Candle>, price: real, reference: int, horizons: seq<Horizon>)
    ensures Computations(candles, price, reference, horizons).Ok?
        <==> forall i :: 0 <= i < |horizons| ==> Computation(candles, price, reference, horizons[i]).Ok?
    ensures Computations(candles, price, reference, horizons).Ok? ==>
              && |Computations(candles, price, reference, horizons).value| == |horizons|
              && forall i :: 0 <= i < |horizons| ==>
                   Computation(candles, price, reference, horizons[i])
                   == Ok(Computations(candles, price, reference, horizons).value[i])
  {
    if horizons != [] {
      var shorter := horizons[..|horizons| - 1];
      ComputationsAre(candles, price, reference, shorter);
      assert forall i :: 0 <= i < |shorter| ==> shorter[i] == horizons[i];
    }
  }

  /** `merged` is `resolved` and, for each result, its horizon with it. */
  ghost predicate Merged(resolved: map<Horizon, HorizonResult>, results: seq<HorizonResult>,
                         merged: map<Horizon, HorizonResult>)
  {
    && (forall h :: h in merged <==> h in resolved || exists i :: 0 <= i < |results| && results[i].horizon == h)
    && (forall h :: h in resolved ==> merged[h] == resolved[h])
    && forall i :: 0 <= i < |results| ==> merged[results[i].horizon] == results[i]
  }

  lemma NotYetMerged(resolved: map<Horizon, HorizonResult>, results: seq<HorizonResult>,
                     merged: map<Horizon, HorizonResult>, horizon: Horizon)
    requires Merged(resolved, results, merged) && horizon !in resolved
    requires forall i :: 0 <= i < |results| ==> results[i].horizon != horizon
    ensures horizon !in merged
  {
  }

  lemma MergedOneMore(resolved: map<Horizon, HorizonResult>, results: seq<HorizonResult>,
                      merged: map<Horizon, HorizonResult>, last: HorizonResult)
    requires Merged(resolved, results, merged) && last.horizon !in merged
    ensures Merged(resolved, results + [last], merged[last.horizon := last])
  {
    var longer := results + [last];
    assert forall i :: 0 <= i < |results| ==> longer[i] == results[i];
    assert longer[|results|] == last;
  }

  /** Results for new, distinct horizons are all merged. */
  lemma {:induction false} MergeAllFresh(resolved: map<Horizon, HorizonResult>, results: seq<HorizonResult>)
    requires forall i :: 0 <= i < |results| ==> results[i].horizon !in resolved
    requires forall i, j :: 0 <= i < j < |results| ==> results[i].horizon != results[j].horizon
    ensures MergeAll(resolved, results).Ok? && MergeAll(resolved, results).value.added == |results|
    ensures Merged(resolved, results, MergeAll(resolved, results).value.resolved)
  {
    if results != [] {
      var shorter, last := results[..|results| - 1], results[|results| - 1];
      MergeAllFresh(resolved, shorter);
      assert forall i :: 0 <= i < |shorter| ==> shorter[i] == results[i];
      NotYetMerged(resolved, shorter, MergeAll(resolved, shorter).value.resolved, last.horizon);
      MergedOneMore(resolved, shorter, MergeAll(resolved, shorter).value.resolved, last);
      assert results == shorter + [last];
    }
  }

  function Computed(candles: seq<Candle>, price: real, reference: int, horizon: Horizon): HorizonResult {
    match Computation(candles, price, reference, horizon)
    case Ok(result) => result
    case Err(_) => HorizonResult(horizon, TargetAt(reference, horizon), 0.0, 0.0, 0.0, 0.0, 0.0, 0.0)
  }

  /** What was resolved stays; the rest of the first d horizons is computed from the market. */
  function Filled(resolved: map<Horizon, HorizonResult>, candles: seq<Candle>, price: real, reference: int, d: nat)
    : map<Horizon, HorizonResult>
  {
    map h | h in First(d) :: if h in resolved then resolved[h] else Computed(candles, price, reference, h)
  }

  lemma AvailableMeansAll(candles: seq<Candle>, price: real, reference: int, n: nat, d: nat)
    requires n < d <= 3
    ensures Computation(candles, price, reference, Nth(d)).Ok?
        <==> forall i :: n <= i < d ==> Computation(candles, price, reference, Contracts()[i]).Ok?
  {
    assert Contracts()[d - 1] == Nth(d);
    if Computation(candles, price, reference, Nth(d)).Ok? {
      forall i | n <= i < d ensures Computation(candles, price, reference, Contracts()[i]).Ok? {
        HorizonPrefix(candles, price, reference, Contracts()[i], Nth(d));
      }
    }
  }

  lemma CandidateFilled(candidate: CandidateState, eligible: map<string, seq<Horizon>>, market: Market,
                        reference: int, n: nat, d: nat)
    requires n < d <= 3 && candidate.resolved.Keys == First(n)
    requires candidate.symbol in eligible && eligible[candidate.symbol] == Contracts()[n..d]
    ensures Available(candidate.symbol, candidate.referencePrice, market, reference, d)
         ==> ResolveCandidate(candidate, eligible, market, reference)
             == Ok(Merge(Filled(candidate.resolved, market[candidate.symbol], candidate.referencePrice, reference, d),
                         d - n))
    ensures !Available(candidate.symbol, candidate.referencePrice, market, reference, d)
         ==> ResolveCandidate(candidate, eligible, market, reference).Err?
  {
    if candidate.symbol in market {
      var candles := market[candidate.symbol];
      ComputedTogether(candles, candidate.referencePrice, reference, n, d);
      var computed := Computations(candles, candidate.referencePrice, reference, Contracts()[n..d]);
      if computed.Ok? {
        FrameFilled(candidate.resolved, candles, candidate.referencePrice, reference, n, d, computed.value);
      }
    }
  }

  lemma ComputedTogether(candles: seq<Candle>, price: real, reference: int, n: nat, d: nat)
    requires n < d <= 3
    ensures Computations(candles, price, reference, Contracts()[n..d]).Ok?
         == Computation(candles, price, reference, Nth(d)).Ok?
    ensures var computed := Computations(candles, price, reference, Contracts()[n..d]);
            computed.Ok? ==> AreComputed(candles, price, reference, n, d, computed.value)
  {
    var horizons := Contracts()[n..d];
    assert forall i :: 0 <= i < d - n ==> horizons[i] == Contracts()[n + i];
    assert forall i :: n <= i < d ==> Contracts()[i] == horizons[i - n];
    ComputationsAre(candles, price, reference, horizons);
    AvailableMeansAll(candles, price, reference, n, d);
  }

  /** The results are those of the horizons from the (n+1)-th to the d-th. */
  ghost predicate AreComputed(candles: seq<Candle>, price: real, reference: int, n: nat, d: nat,
                              results: seq<HorizonResult>)
    requires n < d <= 3
  {
    && |results| == d - n
    && forall i :: 0 <= i < d - n ==> Computation(candles, price, reference, Contracts()[n + i]) == Ok(results[i])
  }

  lemma FrameFilled(resolved: map<Horizon, HorizonResult>, candles: seq<Candle>, price: real, reference: int,
                    n: nat, d: nat, results: seq<HorizonResult>)
    requires n < d <= 3 && resolved.Keys == First(n) && AreComputed(candles, price, reference, n, d, results)
    ensures MergeAll(resolved, results) == Ok(Merge(Filled(resolved, candles, price, reference, d), d - n))
  {
    assert forall i :: 0 <= i < d - n ==> results[i].horizon == Contracts()[n + i];
    MergeAllFresh(resolved, results);
    FilledExtensionally(resolved, candles, price, reference, n, d, results, MergeAll(resolved, results).value.resolved);
  }

  lemma FilledKeys(resolved: map<Horizon, HorizonResult>, n: nat, d: nat, results: seq<HorizonResult>,
                   merged: map<Horizon, HorizonResult>)
    requires n < d <= 3 && resolved.Keys == First(n) && |results| == d - n
    requires forall i :: 0 <= i < d - n ==> results[i].horizon == Contracts()[n + i]
    requires Merged(resolved, results, merged)
    ensures merged.Keys == First(d)
  {
    forall h ensures h in merged <==> h in First(d) {
      if h in First(d) && h !in First(n) { assert results[Rank(h) - 1 - n].horizon == h; }
    }
  }

  lemma FilledExtensionally(resolved: map<Horizon, HorizonResult>, candles: seq<Candle>, price: real, reference: int,
                            n: nat, d: nat, results: seq<HorizonResult>, merged: map<Horizon, HorizonResult>)
    requires n < d <= 3 && resolved.Keys == First(n) && AreComputed(candles, price, reference, n, d, results)
    requires Merged(resolved, results, merged)
    ensures merged == Filled(resolved, candles, price, reference, d)
  {
    assert forall i :: 0 <= i < d - n ==> results[i].horizon == Contracts()[n + i];
    FilledKeys(resolved, n, d, results, merged);
    FilledValues(resolved, candles, price, reference, n, d, results, merged);
    FilledIs(resolved, candles, price, reference, d, merged);
  }

  lemma FilledIs(resolved: map<Horizon, HorizonResult>, candles: seq<Candle>, price: real, reference: int, d: nat,
                 merged: map<Horizon, HorizonResult>)
    requires merged.Keys == First(d) && forall h :: h in resolved && h in merged ==> merged[h] == resolved[h]
    requires forall h :: h in merged && h !in resolved ==> merged[h] == Computed(candles, price, reference, h)
    ensures merged == Filled(resolved, candles, price, reference, d)
  {
  }

  lemma FilledValues(resolved: map<Horizon, HorizonResult>, candles: seq<Candle>, price: real, reference: int,
                     n: nat, d: nat, results: seq<HorizonResult>, merged: map<Horizon, HorizonResult>)
    requires n < d <= 3 && AreComputed(candles, price, reference, n, d, results)
    requires forall i :: 0 <= i < d - n ==> results[i].horizon == Contracts()[n + i]
    requires Merged(resolved, results, merged)
    ensures forall h :: h in merged && h !in resolved ==> merged[h] == Computed(candles, price, reference, h)
  {
    forall h | h in merged && h !in resolved ensures merged[h] == Computed(candles, price, reference, h) {
      var i :| 0 <= i < |results| && results[i].horizon == h;
    }
  }
}
