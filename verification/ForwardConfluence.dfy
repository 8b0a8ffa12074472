/** What a run of the forward resolver does to an artifact at a given level, what every history
    therefore keeps, and exactly when running twice is running once. */
module ForwardConfluence {
  import opened Wrappers
  import opened ForwardOutcome
  import opened ForwardWindows
  import opened ForwardRuns

  // ---------------------------------------------------------------- one run

  function FilledCandidate(candidate: CandidateState, market: Market, reference: int, d: nat): CandidateState {
    if candidate.symbol !in market then candidate
    else
      var candles := market[candidate.symbol];
      candidate.(resolved := Filled(candidate.resolved, candles, candidate.referencePrice, reference, d))
  }

  function FilledAll(candidates: seq<CandidateState>, market: Market, reference: int,
                     d: nat): (filled: seq<CandidateState>)
    ensures |filled| == |candidates|
    ensures forall i :: 0 <= i < |filled| ==> filled[i] == FilledCandidate(candidates[i], market, reference, d)
  {
    if candidates == [] then []
    else FilledAll(candidates[..|candidates| - 1], market, reference, d)
         + [FilledCandidate(candidates[|candidates| - 1], market, reference, d)]
  }

  /** As many of each candidate. */
  function OfEach(candidates: nat, each: nat): (total: nat)
    ensures candidates > 0 && each > 0 ==> total > 0
  {
    if candidates == 0 then 0 else OfEach(candidates - 1, each) + each
  }

  /** What comes of one step for each candidate. */
  function Together(candidates: seq<CandidateState>, steps: seq<Result<Merge, Error>>): Result<Progress, Error>
    requires |steps| == |candidates|
  {
    if candidates == [] then Ok(Progress([], 0))
    else
      var last := |candidates| - 1;
      match Together(candidates[..last], steps[..last])
      case Err(error) => Err(error)
      case Ok(before) =>
        match steps[last]
        case Err(error) => Err(error)
        case Ok(merge) =>
          Ok(Progress(before.candidates + [candidates[last].(resolved := merge.resolved)], before.added + merge.added))
  }

  lemma {:induction false} CandidatesTogether(candidates: seq<CandidateState>, steps: seq<Result<Merge, Error>>,
                                              eligible: map<string, seq<Horizon>>, market: Market, reference: int)
    requires |steps| == |candidates|
    requires forall i :: 0 <= i < |candidates| ==>
               steps[i] == ResolveCandidate(candidates[i], eligible, market, reference)
    ensures ResolveCandidates(candidates, eligible, market, reference) == Together(candidates, steps)
  {
    if candidates != [] {
      CandidatesTogether(candidates[..|candidates| - 1], steps[..|candidates| - 1], eligible, market, reference);
    }
  }

  lemma {:induction false} StepsTogether(candidates: seq<CandidateState>, steps: seq<Result<Merge, Error>>,
                                         filled: seq<CandidateState>, each: nat)
    requires |steps| == |candidates| == |filled|
    requires forall i :: 0 <= i < |candidates| && steps[i].Ok? ==>
               filled[i] == candidates[i].(resolved := steps[i].value.resolved) && steps[i].value.added == each
    ensures Together(candidates, steps).Ok? <==> forall i :: 0 <= i < |candidates| ==> steps[i].Ok?
    ensures Together(candidates, steps).Ok? ==>
              Together(candidates, steps).value == Progress(filled, OfEach(|candidates|, each))
  {
    if candidates != [] {
      var last := |candidates| - 1;
      StepsTogether(candidates[..last], steps[..last], filled[..last], each);
      assert (forall i :: 0 <= i < last ==> steps[i].Ok?) == (forall i :: 0 <= i < last ==> steps[..last][i].Ok?);
      assert filled == filled[..last] + [filled[last]];
    }
  }

  /** Every candidate is filled in, or the whole run fails. */
  lemma AllOrNothing(candidates: seq<CandidateState>, steps: seq<Result<Merge, Error>>,
                     filled: seq<CandidateState>, each: nat, advances: bool)
    requires |steps| == |candidates| == |filled|
    requires forall i :: 0 <= i < |candidates| && steps[i].Ok? ==>
               filled[i] == candidates[i].(resolved := steps[i].value.resolved) && steps[i].value.added == each
    requires advances <==> forall i :: 0 <= i < |candidates| ==> steps[i].Ok?
    ensures advances ==> Together(candidates, steps) == Ok(Progress(filled, OfEach(|candidates|, each)))
    ensures !advances ==> Together(candidates, steps).Err?
  {
    StepsTogether(candidates, steps, filled, each);
  }

  function Steps(candidates: seq<CandidateState>, eligible: map<string, seq<Horizon>>, market: Market, reference: int)
    : (steps: seq<Result<Merge, Error>>)
    ensures |steps| == |candidates|
    ensures forall i :: 0 <= i < |steps| ==> steps[i] == ResolveCandidate(candidates[i], eligible, market, reference)
  {
    seq(|candidates|, i requires 0 <= i < |candidates| => ResolveCandidate(candidates[i], eligible, market, reference))
  }

  /** The market can complete the first d horizons of every candidate of the entry. */
  predicate CanAdvance(entry: Entry, market: Market, d: nat) {
    forall i :: 0 <= i < |entry.candidates| ==>
      Available(entry.candidates[i].symbol, entry.candidates[i].referencePrice, market, Reference(entry), d)
  }

  /** What that asks of the market: every symbol is fetched, at a positive reference price, without
      duplicate timestamps and with the d candles after the reference in order. */
  lemma CanAdvanceExactlyWhen(entry: Entry, market: Market, d: nat)
    requires 1 <= d <= 3
    ensures CanAdvance(entry, market, d)
       <==> forall i :: 0 <= i < |entry.candidates| ==>
              && entry.candidates[i].referencePrice > 0.0 && entry.candidates[i].symbol in market
              && !HasDuplicates(market[entry.candidates[i].symbol])
              && Shows(market[entry.candidates[i].symbol], ReferenceClose(Reference(entry)), d)
  {
    forall i | 0 <= i < |entry.candidates|
      ensures Available(entry.candidates[i].symbol, entry.candidates[i].referencePrice, market, Reference(entry), d)
         <==> && entry.candidates[i].referencePrice > 0.0 && entry.candidates[i].symbol in market
              && !HasDuplicates(market[entry.candidates[i].symbol])
              && Shows(market[entry.candidates[i].symbol], ReferenceClose(Reference(entry)), d)
    {
      if entry.candidates[i].symbol in market {
        var c := entry.candidates[i];
        ComputableExactlyWhen(market[c.symbol], c.referencePrice, Reference(entry), Nth(d));
      }
    }
  }

  /** The artifact after a run, of an entry that is accepted, with d horizons due. */
  function AfterRun(artifact: Option<Resolution>, entry: Entry, n: nat, market: Market, d: nat): Option<Resolution>
    requires artifact.None? ==> InitialState(entry).Ok?
  {
    if d <= n then Some(Opened(artifact, entry))
    else if CanAdvance(entry, market, d) then Some(FilledState(Opened(artifact, entry), market, d))
    else artifact
  }

  lemma {:induction false} RunLeaves(artifact: Option<Resolution>, entry: Entry, n: nat, market: Market, now: int)
    requires At(artifact, entry, n)
    ensures Resolve(artifact, entry, market, now).artifact
         == AfterRun(artifact, entry, n, market, Due(Reference(entry), now))
  {
    RunFrom(artifact, entry, n, market, now, Due(Reference(entry), now));
  }

  function FilledState(state: Resolution, market: Market, d: nat): Resolution {
    state.(candidates := FilledAll(state.candidates, market, state.referenceCandleAt, d))
  }

  lemma StepOf(candidate: CandidateState, eligible: map<string, seq<Horizon>>, market: Market, reference: int, n: nat,
               d: nat)
    requires n < d <= 3 && candidate.resolved.Keys == First(n)
    requires candidate.symbol in eligible && eligible[candidate.symbol] == Contracts()[n..d]
    ensures ResolveCandidate(candidate, eligible, market, reference).Ok?
        <==> Available(candidate.symbol, candidate.referencePrice, market, reference, d)
    ensures ResolveCandidate(candidate, eligible, market, reference).Ok? ==>
              && ResolveCandidate(candidate, eligible, market, reference).value.added == d - n
              && FilledCandidate(candidate, market, reference, d)
                 == candidate.(resolved := ResolveCandidate(candidate, eligible, market, reference).value.resolved)
  {
    CandidateFilled(candidate, eligible, market, reference, n, d);
  }

  lemma CandidatesResolved(candidates: seq<CandidateState>, entry: Entry, eligible: map<string, seq<Horizon>>,
                           market: Market,
                           n: nat, d: nat)
    requires n < d <= 3 && CandidatesAt(candidates, entry, Reference(entry), n)
    requires forall i :: 0 <= i < |candidates| ==>
               candidates[i].symbol in eligible && eligible[candidates[i].symbol] == Contracts()[n..d]
    ensures CanAdvance(entry, market, d) ==>
              ResolveCandidates(candidates, eligible, market, Reference(entry))
              == Ok(Progress(FilledAll(candidates, market, Reference(entry), d), OfEach(|candidates|, d - n)))
    ensures !CanAdvance(entry, market, d) ==> ResolveCandidates(candidates, eligible, market, Reference(entry)).Err?
  {
    var steps := Steps(candidates, eligible, market, Reference(entry));
    CandidatesTogether(candidates, steps, eligible, market, Reference(entry));
    StepsResolve(candidates, entry, eligible, market, n, d, steps);
  }

  lemma StepsResolve(candidates: seq<CandidateState>, entry: Entry, eligible: map<string, seq<Horizon>>, market: Market,
                     n: nat, d: nat, steps: seq<Result<Merge, Error>>)
    requires n < d <= 3 && CandidatesAt(candidates, entry, Reference(entry), n)
    requires forall i :: 0 <= i < |candidates| ==>
               candidates[i].symbol in eligible && eligible[candidates[i].symbol] == Contracts()[n..d]
    requires steps == Steps(candidates, eligible, market, Reference(entry))
    ensures CanAdvance(entry, market, d) ==>
              Together(candidates, steps)
              == Ok(Progress(FilledAll(candidates, market, Reference(entry), d), OfEach(|candidates|, d - n)))
    ensures !CanAdvance(entry, market, d) ==> Together(candidates, steps).Err?
  {
    var filled := FilledAll(candidates, market, Reference(entry), d);
    StepsFill(candidates, entry, eligible, market, n, d, steps, filled);
    AllOrNothing(candidates, steps, filled, d - n, CanAdvance(entry, market, d));
  }

  /** Each step fills its candidate in, and the steps all succeed where the market can advance. */
  lemma StepsFill(candidates: seq<CandidateState>, entry: Entry, eligible: map<string, seq<Horizon>>, market: Market,
                  n: nat, d: nat, steps: seq<Result<Merge, Error>>, filled: seq<CandidateState>)
    requires n < d <= 3 && CandidatesAt(candidates, entry, Reference(entry), n)
    requires forall i :: 0 <= i < |candidates| ==>
               candidates[i].symbol in eligible && eligible[candidates[i].symbol] == Contracts()[n..d]
    requires steps == Steps(candidates, eligible, market, Reference(entry))
    requires filled == FilledAll(candidates, market, Reference(entry), d)
    ensures CanAdvance(entry, market, d) <==> forall i :: 0 <= i < |candidates| ==> steps[i].Ok?
    ensures forall i :: 0 <= i < |candidates| && steps[i].Ok? ==>
              && filled[i] == candidates[i].(resolved := steps[i].value.resolved)
              && steps[i].value.added == d - n
  {
    forall i | 0 <= i < |candidates|
      ensures steps[i].Ok?
         <==> Available(entry.candidates[i].symbol, entry.candidates[i].referencePrice, market, Reference(entry), d)
      ensures steps[i].Ok? ==>
                && filled[i] == candidates[i].(resolved := steps[i].value.resolved)
                && steps[i].value.added == d - n
    {
      assert ResolvedTo(candidates[i].resolved, Reference(entry), n);
      StepOf(candidates[i], eligible, market, Reference(entry), n, d);
    }
  }

  lemma FromState(artifact: Option<Resolution>, start: Resolution, entry: Entry, n: nat, market: Market,
                  now: int, d: nat)
    requires CandidatesAt(start.candidates, entry, start.referenceCandleAt, n) && n <= 3 && entry.candidates != []
    requires start.referenceCandleAt == Reference(entry) && d == Due(Reference(entry), now)
    ensures d <= n ==> ResolveFrom(artifact, start, market, now) == RunOutcome(Some(start), Ok(Summary(false, 0)))
    ensures d > n && CanAdvance(entry, market, d) ==>
              ResolveFrom(artifact, start, market, now)
              == RunOutcome(Some(FilledState(start, market, d)), Ok(Summary(true, OfEach(|entry.candidates|, d - n))))
    ensures d > n && !CanAdvance(entry, market, d) ==>
              && ResolveFrom(artifact, start, market, now).report.Err?
              && ResolveFrom(artifact, start, market, now).artifact == artifact
  {
    forall i | 0 <= i < |start.candidates| ensures start.candidates[i].resolved.Keys == First(n) {
      assert ResolvedTo(start.candidates[i].resolved, Reference(entry), n);
    }
    EligibleIs(start.candidates, Reference(entry), now, n);
    if d > n {
      assert start.candidates[0].symbol in Eligible(start.candidates, Reference(entry), now);
      CandidatesResolved(start.candidates, entry, Eligible(start.candidates, Reference(entry), now), market, n, d);
    }
  }

  /** What a run does: nothing when no horizon is due beyond those resolved; otherwise all of them
      are filled in for every candidate, or the run fails and leaves the artifact as it was. */
  lemma RunFrom(artifact: Option<Resolution>, entry: Entry, n: nat, market: Market, now: int, d: nat)
    requires At(artifact, entry, n) && d == Due(Reference(entry), now)
    ensures d <= n ==>
              Resolve(artifact, entry, market, now) == RunOutcome(Some(Opened(artifact, entry)), Ok(Summary(false, 0)))
    ensures d > n && CanAdvance(entry, market, d) ==>
              Resolve(artifact, entry, market, now)
              == RunOutcome(Some(FilledState(Opened(artifact, entry), market, d)),
                            Ok(Summary(true, OfEach(|entry.candidates|, d - n))))
    ensures d > n && !CanAdvance(entry, market, d) ==>
              && Resolve(artifact, entry, market, now).report.Err?
              && Resolve(artifact, entry, market, now).artifact == artifact
  {
    StartAt(artifact, entry, n);
    FromState(artifact, Opened(artifact, entry), entry, n, market, now, d);
  }

  // ---------------------------------------------------------------- levels

  lemma FilledLevel(resolved: map<Horizon, HorizonResult>, candles: seq<Candle>, price: real, reference: int, n: nat,
                    d: nat)
    requires n < d <= 3 && ResolvedTo(resolved, reference, n) && Computation(candles, price, reference, Nth(d)).Ok?
    ensures ResolvedTo(Filled(resolved, candles, price, reference, d), reference, d)
    ensures forall h :: h in resolved ==> Filled(resolved, candles, price, reference, d)[h] == resolved[h]
  {
    forall h | h in First(d) ensures Computation(candles, price, reference, h).Ok? {
      HorizonPrefix(candles, price, reference, h, Nth(d));
    }
  }

  /** Everything resolved in one state is resolved the same in the other. */
  ghost predicate Grows(before: Resolution, after: Resolution) {
    && |before.candidates| == |after.candidates|
    && forall i :: 0 <= i < |before.candidates| ==>
         forall h :: h in before.candidates[i].resolved ==>
           && h in after.candidates[i].resolved
           && after.candidates[i].resolved[h] == before.candidates[i].resolved[h]
  }

  lemma FilledCandidateLevel(candidate: CandidateState, market: Market, reference: int, n: nat, d: nat)
    requires n < d <= 3 && ResolvedTo(candidate.resolved, reference, n)
    requires Available(candidate.symbol, candidate.referencePrice, market, reference, d)
    ensures ResolvedTo(FilledCandidate(candidate, market, reference, d).resolved, reference, d)
    ensures forall h :: h in candidate.resolved ==>
              && h in FilledCandidate(candidate, market, reference, d).resolved
              && FilledCandidate(candidate, market, reference, d).resolved[h] == candidate.resolved[h]
  {
    FilledLevel(candidate.resolved, market[candidate.symbol], candidate.referencePrice, reference, n, d);
  }

  lemma {:induction false} FilledStateLevel(state: Resolution, entry: Entry, market: Market, n: nat, d: nat)
    requires StateAt(state, entry, n) && n < d <= 3 && CanAdvance(entry, market, d)
    ensures StateAt(FilledState(state, market, d), entry, d) && Grows(state, FilledState(state, market, d))
  {
    var reference := state.referenceCandleAt;
    assert reference == Reference(entry);
    forall i | 0 <= i < |state.candidates|
      ensures ResolvedTo(FilledCandidate(state.candidates[i], market, reference, d).resolved, reference, d)
      ensures var filled := FilledCandidate(state.candidates[i], market, reference, d).resolved;
              forall h :: h in state.candidates[i].resolved ==>
                h in filled && filled[h] == state.candidates[i].resolved[h]
    {
      assert Available(entry.candidates[i].symbol, entry.candidates[i].referencePrice, market, reference, d);
      FilledCandidateLevel(state.candidates[i], market, reference, n, d);
    }
  }

  /** An artifact that is there stays, and only grows. */
  ghost predicate GrowsTo(before: Option<Resolution>, after: Option<Resolution>) {
    before.Some? ==> after.Some? && Grows(before.value, after.value)
  }

  /** A run never loses or alters a result, and leaves every candidate at the same level. */
  lemma RunKeepsLevels(artifact: Option<Resolution>, entry: Entry, n: nat, market: Market, now: int) returns (m: nat)
    requires At(artifact, entry, n)
    ensures n <= m && At(Resolve(artifact, entry, market, now).artifact, entry, m)
    ensures GrowsTo(artifact, Resolve(artifact, entry, market, now).artifact)
  {
    var d := Due(Reference(entry), now);
    RunFrom(artifact, entry, n, market, now, d);
    StartAt(artifact, entry, n);
    m := n;
    if d > n && CanAdvance(entry, market, d) {
      FilledStateLevel(Opened(artifact, entry), entry, market, n, d);
      m := d;
    }
  }

  // ---------------------------------------------------------------- histories

  /** One run of the resolver: what the market showed, and when. */
  datatype Occasion = Occasion(market: Market, now: int)

  function Continued(artifact: Option<Resolution>, entry: Entry, occasions: seq<Occasion>): Option<Resolution> {
    if occasions == [] then artifact
    else
      var last := occasions[|occasions| - 1];
      Resolve(Continued(artifact, entry, occasions[..|occasions| - 1]), entry, last.market, last.now).artifact
  }

  lemma {:induction false} ContinuedLevel(artifact: Option<Resolution>, entry: Entry, n: nat,
                                          occasions: seq<Occasion>) returns (m: nat)
    requires At(artifact, entry, n)
    ensures n <= m && At(Continued(artifact, entry, occasions), entry, m)
    ensures GrowsTo(artifact, Continued(artifact, entry, occasions))
  {
    m := n;
    if occasions != [] {
      var shorter, last := occasions[..|occasions| - 1], occasions[|occasions| - 1];
      var middle := Continued(artifact, entry, shorter);
      m := ContinuedLevel(artifact, entry, n, shorter);
      m := RunKeepsLevels(middle, entry, m, last.market, last.now);
      GrowsOn(artifact, middle, Resolve(middle, entry, last.market, last.now).artifact);
    }
  }

  lemma GrowsOn(a: Option<Resolution>, b: Option<Resolution>, c: Option<Resolution>)
    requires GrowsTo(a, b) && GrowsTo(b, c)
    ensures GrowsTo(a, c)
  {
  }

  lemma {:induction false} RefusedEntryWritesNothing(entry: Entry, occasions: seq<Occasion>)
    requires !EntryAccepted(entry)
    ensures Continued(None, entry, occasions) == None
  {
    if occasions != [] { RefusedEntryWritesNothing(entry, occasions[..|occasions| - 1]); }
  }

  /** Whatever the markets showed and whenever it ran: the resolved horizons of an artifact are
      the first n of h4, h8, h12 with the n the same for every candidate, each with the target
      its contract gives. */
  lemma ResolvedSetsArePrefixes(entry: Entry, occasions: seq<Occasion>)
    ensures Continued(None, entry, occasions).Some? ==>
              exists n :: StateAt(Continued(None, entry, occasions).value, entry, n)
  {
    if EntryAccepted(entry) {
      var n := ContinuedLevel(None, entry, 0, occasions);
    } else {
      RefusedEntryWritesNothing(entry, occasions);
    }
  }

  // ---------------------------------------------------------------- confluence

  /** Two frames give the same results for the first d horizons. */
  ghost predicate SameUpTo(one: seq<Candle>, other: seq<Candle>, price: real, reference: int, d: nat) {
    forall h :: 1 <= Rank(h) <= d ==> Computation(one, price, reference, h) == Computation(other, price, reference, h)
  }

  ghost predicate AgreeOn(symbol: string, price: real, reference: int, one: Market, other: Market, d: nat) {
    if symbol !in one then symbol !in other
    else symbol in other && SameUpTo(one[symbol], other[symbol], price, reference, d)
  }

  /** The two markets show the same for the first d horizons of every candidate. */
  ghost predicate Agree(entry: Entry, one: Market, other: Market, d: nat) {
    forall i :: 0 <= i < |entry.candidates| ==>
      AgreeOn(entry.candidates[i].symbol, entry.candidates[i].referencePrice, Reference(entry), one, other, d)
  }

  lemma SameResults(one: seq<Candle>, other: seq<Candle>, price: real, reference: int, h: Horizon, d: nat)
    requires SameUpTo(one, other, price, reference, d) && h in First(d) && d <= 3
    ensures Computed(one, price, reference, h) == Computed(other, price, reference, h)
  {
    assert Computation(one, price, reference, h) == Computation(other, price, reference, h);
  }

  lemma AgreeingFrames(resolved: map<Horizon, HorizonResult>, one: seq<Candle>, other: seq<Candle>, price: real,
                       reference: int, d: nat)
    requires SameUpTo(one, other, price, reference, d) && d <= 3
    ensures Filled(resolved, one, price, reference, d) == Filled(resolved, other, price, reference, d)
  {
    forall h | h in First(d) ensures Computed(one, price, reference, h) == Computed(other, price, reference, h) {
      SameResults(one, other, price, reference, h, d);
    }
  }

  lemma AgreeingCandidate(candidate: CandidateState, reference: int, one: Market, other: Market, d: nat)
    requires 1 <= d <= 3 && AgreeOn(candidate.symbol, candidate.referencePrice, reference, one, other, d)
    ensures FilledCandidate(candidate, one, reference, d) == FilledCandidate(candidate, other, reference, d)
    ensures Available(candidate.symbol, candidate.referencePrice, one, reference, d)
         == Available(candidate.symbol, candidate.referencePrice, other, reference, d)
  {
    if candidate.symbol in one {
      var price := candidate.referencePrice;
      AgreeingFrames(candidate.resolved, one[candidate.symbol], other[candidate.symbol], price, reference, d);
      assert Computation(one[candidate.symbol], candidate.referencePrice, reference, Nth(d))
          == Computation(other[candidate.symbol], candidate.referencePrice, reference, Nth(d));
    }
  }

  lemma {:induction false} AgreeingFill(candidates: seq<CandidateState>, entry: Entry, one: Market, other: Market,
                                        n: nat, d: nat)
    requires n < d <= 3 && CandidatesAt(candidates, entry, Reference(entry), n) && Agree(entry, one, other, d)
    ensures FilledAll(candidates, one, Reference(entry), d) == FilledAll(candidates, other, Reference(entry), d)
    ensures CanAdvance(entry, one, d) == CanAdvance(entry, other, d)
  {
    var reference := Reference(entry);
    forall i | 0 <= i < |candidates|
      ensures FilledCandidate(candidates[i], one, reference, d) == FilledCandidate(candidates[i], other, reference, d)
      ensures Available(entry.candidates[i].symbol, entry.candidates[i].referencePrice, one, reference, d)
           == Available(entry.candidates[i].symbol, entry.candidates[i].referencePrice, other, reference, d)
    {
      AgreeingCandidate(candidates[i], reference, one, other, d);
    }
  }

  lemma FilledTwice(resolved: map<Horizon, HorizonResult>, early: seq<Candle>, late: seq<Candle>, price: real,
                    reference: int,
                    n: nat, d: nat, e: nat)
    requires n < d < e <= 3 && ResolvedTo(resolved, reference, n) && SameUpTo(early, late, price, reference, d)
    ensures Filled(Filled(resolved, early, price, reference, d), late, price, reference, e)
         == Filled(resolved, late, price, reference, e)
  {
    var once := Filled(resolved, early, price, reference, d);
    forall h | h in First(d) && h !in resolved ensures once[h] == Computed(late, price, reference, h) {
      SameResults(early, late, price, reference, h, d);
    }
  }

  lemma CandidateInStages(candidate: CandidateState, early: Market, late: Market, reference: int, n: nat,
                          d: nat, e: nat)
    requires n < d < e <= 3 && ResolvedTo(candidate.resolved, reference, n)
    requires AgreeOn(candidate.symbol, candidate.referencePrice, reference, early, late, d)
    ensures FilledCandidate(FilledCandidate(candidate, early, reference, d), late, reference, e)
         == FilledCandidate(candidate, late, reference, e)
  {
    if candidate.symbol in early {
      var first, second := early[candidate.symbol], late[candidate.symbol];
      FilledTwice(candidate.resolved, first, second, candidate.referencePrice, reference, n, d, e);
    }
  }

  lemma {:induction false} FillInStages(state: Resolution, entry: Entry, early: Market, late: Market, n: nat, d: nat,
                                        e: nat)
    requires StateAt(state, entry, n) && n < d < e <= 3 && Agree(entry, early, late, d)
    ensures FilledState(FilledState(state, early, d), late, e) == FilledState(state, late, e)
  {
    CandidatesInStages(state.candidates, entry, early, late, n, d, e);
  }

  lemma CandidatesInStages(candidates: seq<CandidateState>, entry: Entry, early: Market, late: Market,
                           n: nat, d: nat, e: nat)
    requires CandidatesAt(candidates, entry, Reference(entry), n) && n < d < e <= 3 && Agree(entry, early, late, d)
    ensures FilledAll(FilledAll(candidates, early, Reference(entry), d), late, Reference(entry), e)
         == FilledAll(candidates, late, Reference(entry), e)
  {
    var reference := Reference(entry);
    forall i | 0 <= i < |candidates|
      ensures FilledCandidate(FilledCandidate(candidates[i], early, reference, d), late, reference, e)
           == FilledCandidate(candidates[i], late, reference, e)
    {
      CandidateInStages(candidates[i], early, late, reference, n, d, e);
    }
  }

  /** When two runs in succession leave what the second alone would: the later due horizons can
      all be filled in (or are there already), or the first run leaves the artifact as it is,
      because it fails or because it has nothing to do. */
  predicate Confluent(artifact: Option<Resolution>, entry: Entry, n: nat, early: Market, t1: int, late: Market, t2: int)
  {
    ConfluentAt(artifact, entry, n, early, Due(Reference(entry), t1), late, Due(Reference(entry), t2))
  }

  predicate ConfluentAt(artifact: Option<Resolution>, entry: Entry, n: nat, early: Market, d1: nat,
                        late: Market, d2: nat)
  {
    || d2 <= n || CanAdvance(entry, late, d2)
    || (d1 > n && !CanAdvance(entry, early, d1))
    || (artifact.Some? && d1 <= n)
  }

  lemma LevelsDiffer(before: Resolution, after: Resolution, entry: Entry, n: nat, d: nat)
    requires StateAt(before, entry, n) && StateAt(after, entry, d) && n < d
    ensures before != after
  {
    assert ResolvedTo(before.candidates[0].resolved, before.referenceCandleAt, n);
    assert ResolvedTo(after.candidates[0].resolved, after.referenceCandleAt, d);
    assert Nth(d) in First(d) && Nth(d) !in First(n);
  }

  /** Resolving at t1 and again at t2 leaves the same artifact as resolving once at t2 if and only
      if `Confluent`: the first run must not have written what the second cannot complete. */
  lemma {:induction false} TwoRunsAreOneExactlyWhen(artifact: Option<Resolution>, entry: Entry, n: nat, early: Market,
                                                    t1: int, late: Market, t2: int)
    requires At(artifact, entry, n) && t1 <= t2 && Agree(entry, early, late, Due(Reference(entry), t1))
    ensures Confluent(artifact, entry, n, early, t1, late, t2)
        <==> Resolve(Resolve(artifact, entry, early, t1).artifact, entry, late, t2).artifact
             == Resolve(artifact, entry, late, t2).artifact
  {
    var d1, d2 := Due(Reference(entry), t1), Due(Reference(entry), t2);
    var middle, m := Resolve(artifact, entry, early, t1).artifact, LevelAfter(entry, n, early, d1);
    RunLeaves(artifact, entry, n, early, t1);
    RunLeaves(artifact, entry, n, late, t2);
    AfterRunLevel(artifact, entry, n, early, d1);
    RunLeaves(middle, entry, m, late, t2);
    AfterTwoRuns(artifact, entry, n, early, d1, late, d2);
  }

  function LevelAfter(entry: Entry, n: nat, market: Market, d: nat): nat {
    if d > n && CanAdvance(entry, market, d) then d else n
  }

  lemma AfterRunLevel(artifact: Option<Resolution>, entry: Entry, n: nat, market: Market, d: nat)
    requires At(artifact, entry, n) && d <= 3
    ensures At(AfterRun(artifact, entry, n, market, d), entry, LevelAfter(entry, n, market, d))
  {
    StartAt(artifact, entry, n);
    if d > n && CanAdvance(entry, market, d) { FilledStateLevel(Opened(artifact, entry), entry, market, n, d); }
  }

  lemma AfterTwoRuns(artifact: Option<Resolution>, entry: Entry, n: nat, early: Market, d1: nat, late: Market, d2: nat)
    requires At(artifact, entry, n) && d1 <= d2 <= 3 && Agree(entry, early, late, d1)
    ensures At(AfterRun(artifact, entry, n, early, d1), entry, LevelAfter(entry, n, early, d1))
    ensures ConfluentAt(artifact, entry, n, early, d1, late, d2)
       <==> AfterRun(AfterRun(artifact, entry, n, early, d1), entry, LevelAfter(entry, n, early, d1), late, d2)
            == AfterRun(artifact, entry, n, late, d2)
  {
    AfterRunLevel(artifact, entry, n, early, d1);
    if d1 > n && CanAdvance(entry, early, d1) {
      var start := Opened(artifact, entry);
      StartAt(artifact, entry, n);
      var middle := FilledState(start, early, d1);
      StagesAgree(artifact, entry, n, early, late, d1, d2, start, middle, AfterRun(artifact, entry, n, late, d2),
                  AfterRun(Some(middle), entry, d1, late, d2));
    }
  }

  lemma {:induction false} StagesAgree(artifact: Option<Resolution>, entry: Entry, n: nat, early: Market,
                                       late: Market, d1: nat, d2: nat,
                    start: Resolution, middle: Resolution, once: Option<Resolution>, twice: Option<Resolution>)
    requires StateAt(start, entry, n) && n < d1 <= d2 <= 3 && Agree(entry, early, late, d1)
    requires CanAdvance(entry, early, d1) && middle == FilledState(start, early, d1) && StateAt(middle, entry, d1)
    requires artifact == None || artifact == Some(start)
    requires once == if CanAdvance(entry, late, d2) then Some(FilledState(start, late, d2)) else artifact
    requires twice == Some(if d2 > d1 && CanAdvance(entry, late, d2) then FilledState(middle, late, d2) else middle)
    ensures CanAdvance(entry, late, d2) <==> twice == once
  {
    if d2 == d1 {
      SameStage(start, entry, n, early, late, d1);
    } else if CanAdvance(entry, late, d2) {
      FillInStages(start, entry, early, late, n, d1, d2);
    } else if artifact.Some? {
      LevelsDiffer(start, middle, entry, n, d1);
    }
  }

  lemma {:induction false} SameStage(start: Resolution, entry: Entry, n: nat, early: Market, late: Market, d: nat)
    requires StateAt(start, entry, n) && n < d <= 3 && Agree(entry, early, late, d) && CanAdvance(entry, early, d)
    ensures CanAdvance(entry, late, d) && FilledState(start, late, d) == FilledState(start, early, d)
  {
    AgreeingFill(start.candidates, entry, early, late, n, d);
  }

  /** Running again at the same time over the same market changes nothing. */
  lemma RepeatedRunChangesNothing(artifact: Option<Resolution>, entry: Entry, n: nat, market: Market, now: int)
    requires At(artifact, entry, n)
    ensures Resolve(Resolve(artifact, entry, market, now).artifact, entry, market, now).artifact
         == Resolve(artifact, entry, market, now).artifact
  {
    TwoRunsAreOneExactlyWhen(artifact, entry, n, market, now, market, now);
  }

  /** In particular over one fixed market, whatever happened before. */
  lemma {:induction false} AnyHistoryThenTwoRuns(entry: Entry, before: seq<Occasion>, market: Market, t1: int,
                                                 t2: int) returns (n: nat)
    requires EntryAccepted(entry) && t1 <= t2
    ensures At(Continued(None, entry, before), entry, n)
    ensures Confluent(Continued(None, entry, before), entry, n, market, t1, market, t2)
        <==> Resolve(Resolve(Continued(None, entry, before), entry, market, t1).artifact, entry, market, t2).artifact
             == Resolve(Continued(None, entry, before), entry, market, t2).artifact
  {
    n := ContinuedLevel(None, entry, 0, before);
    TwoRunsAreOneExactlyWhen(Continued(None, entry, before), entry, n, market, t1, market, t2);
  }

  /** An entry of one candidate, and a market that shows only its first candle. */
  predicate ShowsOneCandle(entry: Entry, market: Market) {
    && |entry.candidates| == 1 && entry.candidates[0].symbol in market && entry.candidates[0].referencePrice > 0.0
    && |market[entry.candidates[0].symbol]| == 1
    && market[entry.candidates[0].symbol][0].timestamp == ReferenceClose(Reference(entry))
  }

  /** Where the two differ: the first run finds its four hours in the market, and the second,
      alone, fails because the eight are incomplete, and leaves nothing. */
  lemma {:induction false} EarlyRunIsKept(entry: Entry, market: Market, t1: int, t2: int)
    requires EntryAccepted(entry) && ShowsOneCandle(entry, market)
    requires Due(Reference(entry), t1) == 1 && Due(Reference(entry), t2) == 2
    ensures Resolve(None, entry, market, t2).artifact == None
    ensures Resolve(Resolve(None, entry, market, t1).artifact, entry, market, t2).artifact.Some?
  {
    ShortMarket(entry, market);
    RunFrom(None, entry, 0, market, t1, 1);
    RunFrom(None, entry, 0, market, t2, 2);
    var m := RunKeepsLevels(None, entry, 0, market, t1);
    m := RunKeepsLevels(Resolve(None, entry, market, t1).artifact, entry, m, market, t2);
  }

  /** Such a history, in numbers. */
  lemma {:induction false} EarlyRunsCanKnowMore(entry: Entry, market: Market, t1: int, t2: int)
    requires entry == Entry(ENTRY_PREFIX, ENTRY_TYPE, 1, 0, [EntryCandidate("S", 1.0, 0, Uptrend)])
    requires market == map["S" := [Candle(14400, 3.0, 1.0, 2.0)]] && t1 == 28800 && t2 == 43200
    ensures Resolve(Resolve(None, entry, market, t1).artifact, entry, market, t2).artifact
         != Resolve(None, entry, market, t2).artifact
  {
    ExampleShowsOneCandle(entry, market, t1, t2);
    EarlyRunIsKept(entry, market, t1, t2);
  }

  lemma ExampleShowsOneCandle(entry: Entry, market: Market, t1: int, t2: int)
    requires entry == Entry(ENTRY_PREFIX, ENTRY_TYPE, 1, 0, [EntryCandidate("S", 1.0, 0, Uptrend)])
    requires market == map["S" := [Candle(14400, 3.0, 1.0, 2.0)]] && t1 == 28800 && t2 == 43200
    ensures EntryAccepted(entry) && ShowsOneCandle(entry, market)
    ensures Due(Reference(entry), t1) == 1 && Due(Reference(entry), t2) == 2
  {
    assert entry.candidates[0].symbol in market;
  }

  lemma ShortMarket(entry: Entry, market: Market)
    requires ShowsOneCandle(entry, market)
    ensures CanAdvance(entry, market, 1) && !CanAdvance(entry, market, 2)
  {
    OnlyOneAvailable(entry.candidates[0].symbol, entry.candidates[0].referencePrice, market, Reference(entry));
  }

  lemma OnlyOneAvailable(symbol: string, price: real, market: Market, reference: int)
    requires symbol in market && price > 0.0 && |market[symbol]| == 1
    requires market[symbol][0].timestamp == ReferenceClose(reference)
    ensures Available(symbol, price, market, reference, 1) && !Available(symbol, price, market, reference, 2)
  {
    OneCandle(market[symbol], price, reference);
  }

  /** A frame that holds the first candle after the reference and no other. */
  lemma OneCandle(candles: seq<Candle>, price: real, reference: int)
    requires |candles| == 1 && candles[0].timestamp == ReferenceClose(reference) && price > 0.0
    ensures Computation(candles, price, reference, H4).Ok? && Computation(candles, price, reference, H8).Err?
  {
    OneRow(candles, ReferenceClose(reference));
  }

  lemma OneRow(candles: seq<Candle>, close: int)
    requires |candles| == 1 && candles[0].timestamp == close
    ensures Window(candles, close, Later(close, 1)) == Ok(candles) && Window(candles, close, Later(close, 2)).Err?
  {
    OpensAreContiguous(close, 1);
    OpensAreContiguous(close, 2);
    RowsAreFew(candles, Opens(close, Later(close, 2)));
    OnlyRow(candles, Opens(close, Later(close, 1)), close);
  }

  lemma {:induction false} OnlyRow(candles: seq<Candle>, opens: seq<int>, close: int)
    requires |candles| == 1 && candles[0].timestamp == close && opens == [close]
    ensures Rows(candles, opens) == candles && Stamps(candles) == opens
  {
    var rest, last := candles[..|candles| - 1], candles[|candles| - 1];
    assert rest == [] && last == candles[0] && candles == [last];
    assert last.timestamp in opens;
  }

  lemma {:induction false} RowsAreFew(candles: seq<Candle>, opens: seq<int>)
    ensures |Rows(candles, opens)| <= |candles|
  {
    if candles != [] { RowsAreFew(candles[..|candles| - 1], opens); }
  }
}
