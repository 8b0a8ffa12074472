/** What the forward resolver writes, in instants, candles and prices: which artifacts it takes up,
    that every stored result is true of the frame it came from, and what a run adds and when. */
module ForwardMeaning {
  import opened Wrappers
  import opened ForwardOutcome
  import opened ForwardWindows
  import opened ForwardRuns
  import opened ForwardConfluence

  // ---------------------------------------------------------------- one result

  /** When a horizon is due, in seconds after the reference candle opens. */
  function DueAfter(h: Horizon): int {
    match h case H4 => 28800 case H8 => 43200 case H12 => 57600 case OtherHorizon(_) => 0
  }

  /** How many four-hour candles it takes. */
  function CandlesOf(h: Horizon): nat {
    match h case H4 => 1 case H8 => 2 case H12 => 3 case OtherHorizon(_) => 0
  }

  /** The frame's candles that open at each four hours after the reference candle closes. */
  ghost predicate IsWindow(frame: seq<Candle>, reference: int, window: seq<Candle>) {
    && (forall i :: 0 <= i < |window| ==> window[i] in frame && window[i].timestamp == reference + 14400 * (i + 1))
    && forall i, j :: 0 <= i < j < |frame| ==> frame[i].timestamp != frame[j].timestamp
  }

  /** The last close, the highest high and the lowest low, and by how many hundredths of the
      reference price they differ from it. */
  ghost predicate SumsUp(result: HorizonResult, window: seq<Candle>, price: real) {
    && window != [] && price > 0.0
    && result.returnPrice == window[|window| - 1].close
    && (exists i :: 0 <= i < |window| && window[i].high == result.mfePrice)
    && (exists i :: 0 <= i < |window| && window[i].low == result.maePrice)
    && (forall i :: 0 <= i < |window| ==> result.maePrice <= window[i].low && window[i].high <= result.mfePrice)
    && result.returnPct * price == (result.returnPrice - price) * 100.0
    && result.mfePct * price == (result.mfePrice - price) * 100.0
    && result.maePct * price == (result.maePrice - price) * 100.0
  }

  ghost predicate TrueOf(result: HorizonResult, frame: seq<Candle>, price: real, reference: int, h: Horizon) {
    && h in {H4, H8, H12} && result.horizon == h && result.targetAt == reference + DueAfter(h)
    && exists window :: |window| == CandlesOf(h) && IsWindow(frame, reference, window) && SumsUp(result, window, price)
  }

  lemma ResultIsTrue(frame: seq<Candle>, price: real, reference: int, h: Horizon)
    requires h in {H4, H8, H12} && Computation(frame, price, reference, h).Ok?
    ensures TrueOf(Computation(frame, price, reference, h).value, frame, price, reference, h)
  {
    var window := ResultMeans(frame, price, reference, h);
    WindowShows(frame, ReferenceClose(reference), Rank(h));
    assert |window| == CandlesOf(h) && IsWindow(frame, reference, window);
    assert SumsUp(Computation(frame, price, reference, h).value, window, price);
  }

  /** The frame's candles at those positions, in order, are those after the reference candle. */
  ghost predicate ShowsCandles(frame: seq<Candle>, reference: int, at: seq<nat>) {
    && (forall i :: 0 <= i < |at| ==> at[i] < |frame| && frame[at[i]].timestamp == reference + 14400 * (i + 1))
    && forall i, j :: 0 <= i < j < |at| ==> at[i] < at[j]
  }

  predicate IsOpen(timestamp: int, reference: int, h: Horizon) {
    || (timestamp == reference + 14400 && h in {H4, H8, H12}) || (timestamp == reference + 28800 && h in {H8, H12})
    || (timestamp == reference + 43200 && h == H12)
  }

  /** The positions of the frame's candles at the horizon's opens. */
  function AtOpens(frame: seq<Candle>, reference: int, h: Horizon): set<int> {
    set j | 0 <= j < |frame| && IsOpen(frame[j].timestamp, reference, h)
  }

  lemma RowsLast(frame: seq<Candle>, opens: seq<int>)
    requires frame != []
    ensures |Rows(frame, opens)|
         == |Rows(frame[..|frame| - 1], opens)| + if frame[|frame| - 1].timestamp in opens then 1 else 0
  {
  }

  lemma AtOpensLast(frame: seq<Candle>, reference: int, h: Horizon)
    requires frame != []
    ensures |AtOpens(frame, reference, h)|
         == |AtOpens(frame[..|frame| - 1], reference, h)|
            + if IsOpen(frame[|frame| - 1].timestamp, reference, h) then 1 else 0
  {
    var n := |frame| - 1;
    assert AtOpens(frame, reference, h)
        == AtOpens(frame[..n], reference, h) + if IsOpen(frame[n].timestamp, reference, h) then {n} else {};
  }

  lemma {:induction false} RowsCount(frame: seq<Candle>, reference: int, h: Horizon, opens: seq<int>)
    requires forall t :: t in opens <==> IsOpen(t, reference, h)
    ensures |Rows(frame, opens)| == |AtOpens(frame, reference, h)|
  {
    if frame != [] {
      RowsCount(frame[..|frame| - 1], reference, h, opens);
      RowsLast(frame, opens);
      AtOpensLast(frame, reference, h);
    }
  }

  lemma OpensAre(reference: int, h: Horizon, opens: seq<int>)
    requires h in {H4, H8, H12} && opens == Opens(ReferenceClose(reference), TargetAt(reference, h))
    ensures |opens| == CandlesOf(h) && forall t :: t in opens <==> IsOpen(t, reference, h)
  {
    OpensAreContiguous(ReferenceClose(reference), CandlesOf(h));
    assert opens[0] == reference + 14400;
    if h != H4 { assert opens[1] == reference + 28800; }
    if h == H12 { assert opens[2] == reference + 43200; }
  }

  /** Why a horizon is not computed: a repeated timestamp, not as many candles at its opens as it
      takes, those candles out of order, or a reference price that is not positive. */
  lemma {:induction false} ComputationRefusalMeans(frame: seq<Candle>, price: real, reference: int, h: Horizon)
    requires h in {H4, H8, H12} && Computation(frame, price, reference, h).Err?
    ensures Computation(frame, price, reference, h).error
         == if exists i, j :: 0 <= i < j < |frame| && frame[i].timestamp == frame[j].timestamp then DuplicateTimestamps
            else if |AtOpens(frame, reference, h)| != CandlesOf(h) then WindowCountMismatch
            else if forall at: seq<nat> :: |at| == CandlesOf(h) ==> !ShowsCandles(frame, reference, at) then
              WindowSetMismatch
            else NonPositivePrice
  {
    var opens := Opens(ReferenceClose(reference), TargetAt(reference, h));
    OpensAre(reference, h, opens);
    RowsCount(frame, reference, h, opens);
    if !HasDuplicates(frame) { WindowMeans(frame, reference, h); }
  }

  lemma WindowMeans(frame: seq<Candle>, reference: int, h: Horizon)
    requires h in {H4, H8, H12} && !HasDuplicates(frame)
    ensures Window(frame, ReferenceClose(reference), TargetAt(reference, h)).Ok?
       <==> exists at: seq<nat> :: |at| == CandlesOf(h) && ShowsCandles(frame, reference, at)
  {
    forall at: seq<nat> | |at| == CandlesOf(h)
      ensures ShowsCandles(frame, reference, at) <==> ShownAt(frame, ReferenceClose(reference), CandlesOf(h), at)
    {
    }
    if Window(frame, ReferenceClose(reference), TargetAt(reference, h)).Ok? {
      WindowShows(frame, ReferenceClose(reference), CandlesOf(h));
    }
    if Shows(frame, ReferenceClose(reference), CandlesOf(h)) {
      ShownIsWindow(frame, ReferenceClose(reference), CandlesOf(h));
    }
  }

  // ---------------------------------------------------------------- histories

  /** One of the runs, made when the horizon was due, was shown a frame the result is true of. */
  ghost predicate ShownTrue(result: HorizonResult, symbol: string, price: real, reference: int, h: Horizon,
                            occasions: seq<Occasion>) {
    exists o :: o in occasions && TrueAt(result, symbol, price, reference, h, o)
  }

  ghost predicate TrueAt(result: HorizonResult, symbol: string, price: real, reference: int, h: Horizon,
                         occasion: Occasion) {
    && reference + DueAfter(h) <= occasion.now && symbol in occasion.market
    && TrueOf(result, occasion.market[symbol], price, reference, h)
  }

  ghost predicate ResultsTrue(candidate: CandidateState, reference: int, occasions: seq<Occasion>) {
    forall h :: h in candidate.resolved ==>
      ShownTrue(candidate.resolved[h], candidate.symbol, candidate.referencePrice, reference, h, occasions)
  }

  ghost predicate ArtifactTrue(artifact: Option<Resolution>, reference: int, occasions: seq<Occasion>) {
    artifact.Some? ==>
      forall i :: 0 <= i < |artifact.value.candidates| ==> ResultsTrue(artifact.value.candidates[i], reference, occasions)
  }

  ghost predicate Among(occasions: seq<Occasion>, more: seq<Occasion>) {
    forall o :: o in occasions ==> o in more
  }

  lemma ShownEarlier(result: HorizonResult, symbol: string, price: real, reference: int, h: Horizon,
                     occasions: seq<Occasion>, more: seq<Occasion>)
    requires ShownTrue(result, symbol, price, reference, h, occasions) && Among(occasions, more)
    ensures ShownTrue(result, symbol, price, reference, h, more)
  {
  }

  lemma DueMeans(reference: int, now: int, d: nat, h: Horizon)
    requires d == Due(reference, now)
    ensures h in First(d) <==> h in {H4, H8, H12} && reference + DueAfter(h) <= now
    ensures h in {H4, H8, H12} ==> TargetAt(reference, h) == reference + DueAfter(h)
  {
  }

  lemma ComputedIsTrue(frame: seq<Candle>, price: real, reference: int, d: nat, h: Horizon)
    requires d <= 3 && h in First(d) && Computation(frame, price, reference, Nth(d)).Ok?
    ensures TrueOf(Computed(frame, price, reference, h), frame, price, reference, h)
  {
    HorizonPrefix(frame, price, reference, h, Nth(d));
    ResultIsTrue(frame, price, reference, h);
  }

  lemma FilledIsTrue(candidate: CandidateState, reference: int, d: nat, occasions: seq<Occasion>, last: Occasion,
                     more: seq<Occasion>)
    requires ResultsTrue(candidate, reference, occasions) && Among(occasions, more) && last in more
    requires d == Due(reference, last.now)
    requires Available(candidate.symbol, candidate.referencePrice, last.market, reference, d)
    ensures ResultsTrue(FilledCandidate(candidate, last.market, reference, d), reference, more)
  {
    var filled := FilledCandidate(candidate, last.market, reference, d);
    var symbol, price := candidate.symbol, candidate.referencePrice;
    forall h | h in filled.resolved ensures ShownTrue(filled.resolved[h], symbol, price, reference, h, more) {
      if h in candidate.resolved {
        ShownEarlier(candidate.resolved[h], symbol, price, reference, h, occasions, more);
      } else {
        DueMeans(reference, last.now, d, h);
        ComputedIsTrue(last.market[symbol], price, reference, d, h);
        assert TrueAt(filled.resolved[h], symbol, price, reference, h, last);
      }
    }
  }

  lemma FilledStateIsTrue(state: Resolution, entry: Entry, n: nat, d: nat, occasions: seq<Occasion>, last: Occasion,
                          more: seq<Occasion>)
    requires CandidatesAt(state.candidates, entry, Reference(entry), n) && state.referenceCandleAt == Reference(entry)
    requires CanAdvance(entry, last.market, d) && d == Due(Reference(entry), last.now)
    requires ArtifactTrue(Some(state), Reference(entry), occasions) && Among(occasions, more) && last in more
    ensures ArtifactTrue(Some(FilledState(state, last.market, d)), Reference(entry), more)
  {
    forall i | 0 <= i < |state.candidates|
      ensures ResultsTrue(FilledCandidate(state.candidates[i], last.market, Reference(entry), d), Reference(entry), more)
    {
      assert Available(entry.candidates[i].symbol, entry.candidates[i].referencePrice, last.market, Reference(entry), d);
      FilledIsTrue(state.candidates[i], Reference(entry), d, occasions, last, more);
    }
  }

  lemma ArtifactStaysTrue(artifact: Option<Resolution>, reference: int, occasions: seq<Occasion>, more: seq<Occasion>)
    requires ArtifactTrue(artifact, reference, occasions) && Among(occasions, more)
    ensures ArtifactTrue(artifact, reference, more)
  {
    if artifact.Some? {
      forall i | 0 <= i < |artifact.value.candidates| ensures ResultsTrue(artifact.value.candidates[i], reference, more) {
        var candidate := artifact.value.candidates[i];
        assert ResultsTrue(candidate, reference, occasions);
      }
    }
  }

  lemma RunIsTrue(artifact: Option<Resolution>, entry: Entry, n: nat, occasions: seq<Occasion>, last: Occasion,
                  more: seq<Occasion>)
    requires At(artifact, entry, n) && ArtifactTrue(artifact, Reference(entry), occasions)
    requires Among(occasions, more) && last in more
    ensures ArtifactTrue(Resolve(artifact, entry, last.market, last.now).artifact, Reference(entry), more)
  {
    var d := Due(Reference(entry), last.now);
    StartAt(artifact, entry, n);
    RunLeaves(artifact, entry, n, last.market, last.now);
    ArtifactStaysTrue(artifact, Reference(entry), occasions, more);
    assert ArtifactTrue(Some(Opened(artifact, entry)), Reference(entry), occasions);
    if d <= n { ArtifactStaysTrue(Some(Opened(artifact, entry)), Reference(entry), occasions, more); }
    else if CanAdvance(entry, last.market, d) {
      FilledStateIsTrue(Opened(artifact, entry), entry, n, d, occasions, last, more);
    }
  }

  lemma {:induction false} HistoryIsTrue(artifact: Option<Resolution>, entry: Entry, n: nat, occasions: seq<Occasion>,
                                         more: seq<Occasion>)
    requires At(artifact, entry, n) && ArtifactTrue(artifact, Reference(entry), []) && Among(occasions, more)
    ensures ArtifactTrue(Continued(artifact, entry, occasions), Reference(entry), more)
  {
    if occasions == [] {
      ArtifactStaysTrue(artifact, Reference(entry), [], more);
    } else {
      var shorter, last := occasions[..|occasions| - 1], occasions[|occasions| - 1];
      HistoryIsTrue(artifact, entry, n, shorter, more);
      var m := ContinuedLevel(artifact, entry, n, shorter);
      RunIsTrue(Continued(artifact, entry, shorter), entry, m, more, last, more);
    }
  }

  lemma {:induction false} ArtifactIsTrue(entry: Entry, occasions: seq<Occasion>)
    requires EntryAccepted(entry)
    ensures ArtifactTrue(Continued(None, entry, occasions), Reference(entry), occasions)
    ensures exists n :: At(Continued(None, entry, occasions), entry, n)
  {
    HistoryIsTrue(None, entry, 0, occasions, occasions);
    var n := ContinuedLevel(None, entry, 0, occasions);
  }

  /** Whatever the markets showed and whenever it ran: every result in the artifact was computed in
      one of the runs, no earlier than it was due, from that run's frame of the candidate's symbol,
      and is true of it. */
  lemma {:induction false} ResultsAreTrue(entry: Entry, occasions: seq<Occasion>, state: Resolution, i: nat, h: Horizon)
    requires Continued(None, entry, occasions) == Some(state)
    requires i < |state.candidates| && h in state.candidates[i].resolved
    ensures |state.candidates| == |entry.candidates|
    ensures var c := entry.candidates[i];
            exists o :: && o in occasions && c.symbol in o.market && c.referenceCandleAt + DueAfter(h) <= o.now
                        && TrueOf(state.candidates[i].resolved[h], o.market[c.symbol], c.referencePrice,
                                  c.referenceCandleAt, h)
  {
    if !EntryAccepted(entry) { RefusedEntryWritesNothing(entry, occasions); }
    ArtifactIsTrue(entry, occasions);
    var n :| At(Continued(None, entry, occasions), entry, n);
    CandidateOfEntry(state, entry, n, i);
    ResultOfCandidate(entry.candidates[i], occasions, state.candidates[i], h);
  }

  lemma CandidateOfEntry(state: Resolution, entry: Entry, n: nat, i: nat)
    requires StateAt(state, entry, n) && i < |state.candidates|
    ensures |state.candidates| == |entry.candidates| && entry.candidates[i].referenceCandleAt == Reference(entry)
    ensures state.candidates[i].symbol == entry.candidates[i].symbol
    ensures state.candidates[i].referencePrice == entry.candidates[i].referencePrice
    ensures state.referenceCandleAt == Reference(entry)
    ensures ResolvedTo(state.candidates[i].resolved, Reference(entry), n)
  {
  }

  lemma ResultOfCandidate(c: EntryCandidate, occasions: seq<Occasion>, candidate: CandidateState, h: Horizon)
    requires candidate.symbol == c.symbol && candidate.referencePrice == c.referencePrice && h in candidate.resolved
    requires ResultsTrue(candidate, c.referenceCandleAt, occasions)
    ensures exists o :: && o in occasions && c.symbol in o.market && c.referenceCandleAt + DueAfter(h) <= o.now
                        && TrueOf(candidate.resolved[h], o.market[c.symbol], c.referencePrice, c.referenceCandleAt, h)
  {
    var o :| o in occasions && TrueAt(candidate.resolved[h], c.symbol, c.referencePrice, c.referenceCandleAt, h, o);
  }

  // ---------------------------------------------------------------- entries and artifacts

  /** An entry snapshot of the right kind, with candidates that share their reference candle. */
  predicate SoundEntry(entry: Entry) {
    && entry.snapshotType == "v4_outcome_tracker_entry" && entry.schemaVersion == 1
    && "outcome_entry_v4_" <= entry.name && entry.candidates != []
    && forall i, j :: 0 <= i < |entry.candidates| && 0 <= j < |entry.candidates| ==>
         entry.candidates[i].referenceCandleAt == entry.candidates[j].referenceCandleAt
  }

  lemma EntryMeans(entry: Entry)
    ensures SoundEntry(entry) <==> EntryAccepted(entry)
  {
  }

  /** The artifact a first run opens: the entry's identity, and every candidate with nothing resolved. */
  lemma OpenedMeans(entry: Entry)
    requires SoundEntry(entry)
    ensures StartState(None, entry).Ok?
    ensures var state := StartState(None, entry).value;
            && state == Resolution("v4_forward_outcome_resolution", 1, entry.name, entry.snapshotType, entry.schemaVersion,
                                   entry.capturedAt, entry.candidates[0].referenceCandleAt, state.candidates)
            && |state.candidates| == |entry.candidates|
            && forall i :: 0 <= i < |state.candidates| ==>
                 state.candidates[i]
                 == CandidateState(entry.candidates[i].symbol, entry.candidates[i].referencePrice, map[])
  {
  }

  /** The artifact is of this entry, candidate by candidate, and labels its horizons rightly. */
  ghost predicate IsOfEntry(state: Resolution, entry: Entry) {
    && state.snapshotType == "v4_forward_outcome_resolution" && state.schemaVersion == 1
    && state.entryArtifact == entry.name && state.entrySnapshotType == entry.snapshotType
    && state.entrySchemaVersion == entry.schemaVersion && state.entryCapturedAt == entry.capturedAt
    && |state.candidates| == |entry.candidates|
    && (forall i :: 0 <= i < |entry.candidates| ==> entry.candidates[i].referenceCandleAt == state.referenceCandleAt)
    && forall i :: 0 <= i < |state.candidates| ==>
         && state.candidates[i].symbol == entry.candidates[i].symbol
         && state.candidates[i].referencePrice == entry.candidates[i].referencePrice
         && forall h :: h in state.candidates[i].resolved ==>
              h in {H4, H8, H12} && state.candidates[i].resolved[h].horizon == h
  }

  lemma {:induction false} CandidatesErrorMeans(existing: seq<CandidateState>, expected: seq<CandidateState>)
    requires |existing| == |expected|
    ensures CandidatesError(existing, expected) == None
       <==> forall i :: 0 <= i < |existing| ==> CandidateError(existing[i], expected[i]) == None
  {
    if existing != [] {
      CandidatesErrorMeans(existing[1..], expected[1..]);
      assert (forall i :: 0 <= i < |existing| ==> CandidateError(existing[i], expected[i]) == None)
         <==> CandidateError(existing[0], expected[0]) == None
              && forall i :: 0 <= i < |existing[1..]| ==> CandidateError(existing[1..][i], expected[1..][i]) == None by {
        if forall i :: 0 <= i < |existing[1..]| ==> CandidateError(existing[1..][i], expected[1..][i]) == None {
          forall i | 1 <= i < |existing|
            ensures existing[i] == existing[1..][i - 1] && expected[i] == expected[1..][i - 1]
          {
          }
        }
      }
    }
  }

  lemma CandidateErrorMeans(existing: CandidateState, c: EntryCandidate)
    ensures CandidateError(existing, CandidateState(c.symbol, c.referencePrice, map[])) == None
       <==> && existing.symbol == c.symbol && existing.referencePrice == c.referencePrice
            && forall h :: h in existing.resolved ==> h in {H4, H8, H12} && existing.resolved[h].horizon == h
  {
  }

  /** An artifact that is already there is taken up, as it is, if and only if it is of the entry. */
  lemma {:induction false} TakenUpMeans(state: Resolution, entry: Entry)
    requires SoundEntry(entry)
    ensures IsOfEntry(state, entry) ==> StartState(Some(state), entry) == Ok(state)
    ensures !IsOfEntry(state, entry) ==> StartState(Some(state), entry).Err?
  {
    var initial := InitialState(entry).value;
    if |state.candidates| == |entry.candidates| {
      CandidatesErrorMeans(state.candidates, initial.candidates);
      forall i | 0 <= i < |state.candidates|
        ensures CandidateError(state.candidates[i], initial.candidates[i]) == None
           <==> && state.candidates[i].symbol == entry.candidates[i].symbol
                && state.candidates[i].referencePrice == entry.candidates[i].referencePrice
                && forall h :: h in state.candidates[i].resolved ==>
                     h in {H4, H8, H12} && state.candidates[i].resolved[h].horizon == h
      {
        CandidateErrorMeans(state.candidates[i], entry.candidates[i]);
      }
    }
  }

  /** What is wrong with a candidate of an artifact, next to the entry's. */
  ghost function CandidateFault(candidate: CandidateState, c: EntryCandidate): Option<Error> {
    if candidate.symbol != c.symbol then Some(SymbolMismatch)
    else if candidate.referencePrice != c.referencePrice then Some(ReferencePriceMismatch)
    else if exists h :: h in candidate.resolved && h.OtherHorizon? then Some(UnknownHorizon)
    else if exists h :: h in candidate.resolved && candidate.resolved[h].horizon != h then Some(HorizonIdentityMismatch)
    else None
  }

  /** The first candidate with a fault has this one. */
  ghost predicate FirstCandidateFault(candidates: seq<CandidateState>, entries: seq<EntryCandidate>, error: Error)
    requires |candidates| == |entries|
  {
    exists i :: && 0 <= i < |candidates| && CandidateFault(candidates[i], entries[i]) == Some(error)
                && forall j :: 0 <= j < i ==> CandidateFault(candidates[j], entries[j]) == None
  }

  /** Why a run does not start: the first of these that applies. */
  ghost predicate StartsNotFor(artifact: Option<Resolution>, entry: Entry, error: Error) {
    if entry.snapshotType != "v4_outcome_tracker_entry" then error == InvalidSnapshotType
    else if entry.schemaVersion != 1 then error == InvalidSchemaVersion
    else if entry.candidates == [] then error == NoCandidates
    else if exists i :: 0 <= i < |entry.candidates|
                     && entry.candidates[i].referenceCandleAt != entry.candidates[0].referenceCandleAt then
      error == ReferenceNotShared
    else if !("outcome_entry_v4_" <= entry.name) then error == InvalidEntryName
    else
      && artifact != None
      && if artifact.value.(candidates := [])
            != Resolution("v4_forward_outcome_resolution", 1, entry.name, entry.snapshotType, entry.schemaVersion,
                          entry.capturedAt, entry.candidates[0].referenceCandleAt, [])
         then error == IdentityMismatch
         else if |artifact.value.candidates| != |entry.candidates| then error == CandidateCountMismatch
         else FirstCandidateFault(artifact.value.candidates, entry.candidates, error)
  }

  lemma FaultOneEarlier(candidates: seq<CandidateState>, entries: seq<EntryCandidate>, error: Error)
    requires |candidates| == |entries| > 0 && CandidateFault(candidates[0], entries[0]) == None
    requires FirstCandidateFault(candidates[1..], entries[1..], error)
    ensures FirstCandidateFault(candidates, entries, error)
  {
    var i :| && 0 <= i < |candidates[1..]| && CandidateFault(candidates[1..][i], entries[1..][i]) == Some(error)
             && forall j :: 0 <= j < i ==> CandidateFault(candidates[1..][j], entries[1..][j]) == None;
    forall j | 0 <= j < i + 1 ensures CandidateFault(candidates[j], entries[j]) == None {
      if j > 0 { assert candidates[j] == candidates[1..][j - 1] && entries[j] == entries[1..][j - 1]; }
    }
    assert candidates[i + 1] == candidates[1..][i] && entries[i + 1] == entries[1..][i];
  }

  lemma CandidateErrorIsFault(candidate: CandidateState, c: EntryCandidate)
    ensures CandidateError(candidate, CandidateState(c.symbol, c.referencePrice, map[])) == CandidateFault(candidate, c)
  {
  }

  lemma {:induction false} CandidatesRefusedFor(candidates: seq<CandidateState>, entries: seq<EntryCandidate>,
                                                expected: seq<CandidateState>, error: Error)
    requires |candidates| == |entries| == |expected|
    requires forall i :: 0 <= i < |entries| ==>
               expected[i] == CandidateState(entries[i].symbol, entries[i].referencePrice, map[])
    requires CandidatesError(candidates, expected) == Some(error)
    ensures FirstCandidateFault(candidates, entries, error)
  {
    CandidateErrorIsFault(candidates[0], entries[0]);
    if CandidateFault(candidates[0], entries[0]) == None {
      CandidatesRefusedFor(candidates[1..], entries[1..], expected[1..], error);
      FaultOneEarlier(candidates, entries, error);
    }
  }

  /** A run that does not start says why. */
  lemma {:induction false} StartRefusalMeans(artifact: Option<Resolution>, entry: Entry)
    requires StartState(artifact, entry).Err?
    ensures StartsNotFor(artifact, entry, StartState(artifact, entry).error)
  {
    if InitialState(entry).Ok? && NamedAsEntry(entry) && artifact != None {
      ExistingRefusalMeans(artifact.value, entry, InitialState(entry).value, StartState(artifact, entry).error);
    }
  }

  lemma {:induction false} ExistingRefusalMeans(existing: Resolution, entry: Entry, initial: Resolution, error: Error)
    requires InitialState(entry) == Ok(initial) && ExistingError(existing, initial) == Some(error)
    ensures if existing.(candidates := []) != initial.(candidates := []) then error == IdentityMismatch
            else if |existing.candidates| != |entry.candidates| then error == CandidateCountMismatch
            else FirstCandidateFault(existing.candidates, entry.candidates, error)
  {
    assert existing.(candidates := initial.candidates) == initial
       <==> existing.(candidates := []) == initial.(candidates := []) by {
      assert existing.(candidates := initial.candidates).(candidates := []) == existing.(candidates := []);
      assert initial.(candidates := []).(candidates := initial.candidates) == initial;
      assert existing.(candidates := []).(candidates := initial.candidates) == existing.(candidates := initial.candidates);
    }
    if |existing.candidates| == |initial.candidates| && existing.(candidates := initial.candidates) == initial {
      CandidatesRefusedFor(existing.candidates, entry.candidates, initial.candidates, error);
    }
  }

  // ---------------------------------------------------------------- one run

  function HorizonsDue(reference: int, now: int): nat {
    if now >= reference + 57600 then 3
    else if now >= reference + 43200 then 2
    else if now >= reference + 28800 then 1
    else 0
  }

  /** The market shows the candidate's next k four-hour candles, in order, and repeats no timestamp. */
  ghost predicate Completes(c: EntryCandidate, market: Market, k: nat) {
    && c.referencePrice > 0.0 && c.symbol in market
    && (forall i, j :: 0 <= i < j < |market[c.symbol]| ==>
          market[c.symbol][i].timestamp != market[c.symbol][j].timestamp)
    && exists at: seq<nat> :: |at| == k && ShowsCandles(market[c.symbol], c.referenceCandleAt, at)
  }

  lemma CompletesMeans(c: EntryCandidate, market: Market, reference: int, k: nat)
    requires 1 <= k <= 3 && c.referenceCandleAt == reference
    ensures Completes(c, market, k)
       <==> && c.referencePrice > 0.0 && c.symbol in market && !HasDuplicates(market[c.symbol])
            && Shows(market[c.symbol], ReferenceClose(reference), k)
  {
    if c.symbol in market {
      forall at: seq<nat> | |at| == k
        ensures ShowsCandles(market[c.symbol], reference, at)
           <==> ShownAt(market[c.symbol], ReferenceClose(reference), k, at)
      {
      }
    }
  }

  /** Something is due that the artifact has not resolved. */
  ghost predicate IsBehind(before: Option<Resolution>, reference: int, now: int) {
    exists h :: && h in {H4, H8, H12} && reference + DueAfter(h) <= now
                && (before.Some? ==> exists i :: && 0 <= i < |before.value.candidates|
                                                 && h !in before.value.candidates[i].resolved)
  }

  /** The number of results that an artifact holds of each candidate. */
  function Held(artifact: Option<Resolution>): nat {
    if artifact.None? || artifact.value.candidates == [] then 0 else |artifact.value.candidates[0].resolved|
  }

  lemma FirstCounts(resolved: map<Horizon, HorizonResult>, n: nat)
    requires n <= 3 && resolved.Keys == First(n)
    ensures |resolved| == n
  {
    assert |resolved| == |resolved.Keys|;
  }

  lemma HeldMeans(artifact: Option<Resolution>, entry: Entry, n: nat)
    requires At(artifact, entry, n)
    ensures Held(artifact) == n
  {
    if artifact.Some? {
      assert ResolvedTo(artifact.value.candidates[0].resolved, artifact.value.referenceCandleAt, n);
      FirstCounts(artifact.value.candidates[0].resolved, n);
    }
  }

  lemma BehindMeans(before: Option<Resolution>, entry: Entry, n: nat, now: int)
    requires At(before, entry, n)
    ensures IsBehind(before, Reference(entry), now) <==> Due(Reference(entry), now) > n
    ensures HorizonsDue(Reference(entry), now) == Due(Reference(entry), now)
  {
    var d := Due(Reference(entry), now);
    forall h ensures h in First(d) <==> h in {H4, H8, H12} && Reference(entry) + DueAfter(h) <= now {
      DueMeans(Reference(entry), now, d, h);
    }
    if before.Some? {
      forall i | 0 <= i < |before.value.candidates| ensures before.value.candidates[i].resolved.Keys == First(n) {
        assert ResolvedTo(before.value.candidates[i].resolved, before.value.referenceCandleAt, n);
      }
      if d > n { assert Nth(d) !in before.value.candidates[0].resolved && Nth(d) in First(d); }
    } else if d > n {
      assert H4 in First(d);
    }
  }

  lemma AdvanceMeans(entry: Entry, market: Market, d: nat)
    requires SoundEntry(entry) && 1 <= d <= 3
    ensures CanAdvance(entry, market, d)
       <==> forall i :: 0 <= i < |entry.candidates| ==> Completes(entry.candidates[i], market, d)
  {
    CanAdvanceExactlyWhen(entry, market, d);
    forall i | 0 <= i < |entry.candidates|
      ensures Completes(entry.candidates[i], market, d)
         <==> && entry.candidates[i].referencePrice > 0.0 && entry.candidates[i].symbol in market
              && !HasDuplicates(market[entry.candidates[i].symbol])
              && Shows(market[entry.candidates[i].symbol], ReferenceClose(Reference(entry)), d)
    {
      CompletesMeans(entry.candidates[i], market, Reference(entry), d);
    }
  }

  /** The artifact holds what was there and all that is due, for every candidate. */
  ghost predicate HoldsWhatIsDue(before: Option<Resolution>, after: Option<Resolution>, entry: Entry, now: int) {
    && after.Some? && |after.value.candidates| == |entry.candidates|
    && (before.Some? ==> |before.value.candidates| == |entry.candidates|)
    && forall i :: 0 <= i < |entry.candidates| ==>
         forall h :: h in after.value.candidates[i].resolved
                     <==> || (h in {H4, H8, H12} && entry.candidates[i].referenceCandleAt + DueAfter(h) <= now)
                          || (before.Some? && h in before.value.candidates[i].resolved)
  }

  ghost predicate KeysAre(state: Resolution, candidates: nat, n: nat) {
    && |state.candidates| == candidates
    && forall i :: 0 <= i < candidates ==> state.candidates[i].resolved.Keys == First(n)
  }

  lemma LevelKeys(state: Resolution, entry: Entry, n: nat)
    requires StateAt(state, entry, n)
    ensures KeysAre(state, |entry.candidates|, n)
  {
    forall i | 0 <= i < |state.candidates| ensures state.candidates[i].resolved.Keys == First(n) {
      assert ResolvedTo(state.candidates[i].resolved, state.referenceCandleAt, n);
    }
  }

  ghost predicate SharedReference(entry: Entry) {
    forall i :: 0 <= i < |entry.candidates| ==> entry.candidates[i].referenceCandleAt == Reference(entry)
  }

  lemma LevelHoldsWhatIsDue(before: Option<Resolution>, after: Resolution, entry: Entry, n: nat, m: nat, now: int)
    requires SharedReference(entry) && (before.None? ==> n == 0)
    requires (before.Some? ==> KeysAre(before.value, |entry.candidates|, n)) && KeysAre(after, |entry.candidates|, m)
    requires var d := Due(Reference(entry), now); m == if d > n then d else n
    ensures HoldsWhatIsDue(before, Some(after), entry, now)
  {
    var d := Due(Reference(entry), now);
    forall h ensures h in First(d) <==> h in {H4, H8, H12} && Reference(entry) + DueAfter(h) <= now {
      DueMeans(Reference(entry), now, d, h);
    }
    assert forall h :: h in First(m) <==> h in First(d) || h in First(n);
  }

  lemma {:induction false} OfEachIsProduct(candidates: nat, each: nat)
    ensures OfEach(candidates, each) == candidates * each
  {
    if candidates > 0 { OfEachIsProduct(candidates - 1, each); }
  }

  /** What a run answers: it succeeds if and only if nothing new is due, or the market completes
      every candidate up to what is due.  Then the artifact holds what it held and everything due,
      and the report counts what was added; otherwise the artifact is as it was. */
  ghost predicate RunAnswers(entry: Entry, before: Option<Resolution>, market: Market, now: int, run: RunOutcome)
    requires entry.candidates != []
  {
    var reference := entry.candidates[0].referenceCandleAt;
    && (run.report.Ok?
        <==> !IsBehind(before, reference, now)
             || forall i :: 0 <= i < |entry.candidates| ==>
                  Completes(entry.candidates[i], market, HorizonsDue(reference, now)))
    && (run.report.Err? ==> run.artifact == before)
    && (run.report.Ok? ==> HoldsWhatIsDue(before, run.artifact, entry, now))
    && (run.report.Ok? ==> run.report.value.changed == IsBehind(before, reference, now))
    && (run.report.Ok? ==> run.report.value.added == |entry.candidates| * (Held(run.artifact) - Held(before)))
  }

  /** So it does after any history. */
  lemma {:induction false} RunMeans(entry: Entry, occasions: seq<Occasion>, market: Market, now: int)
    requires SoundEntry(entry)
    ensures var before := Continued(None, entry, occasions);
            RunAnswers(entry, before, market, now, Resolve(before, entry, market, now))
  {
    EntryMeans(entry);
    var n := ContinuedLevel(None, entry, 0, occasions);
    RunOfLevel(entry, Continued(None, entry, occasions), n, market, now);
  }

  lemma {:induction false} RunOfLevel(entry: Entry, before: Option<Resolution>, n: nat, market: Market, now: int)
    requires SoundEntry(entry) && At(before, entry, n)
    ensures RunAnswers(entry, before, market, now, Resolve(before, entry, market, now))
  {
    var d := Due(Reference(entry), now);
    RunFrom(before, entry, n, market, now, d);
    StartAt(before, entry, n);
    BehindMeans(before, entry, n, now);
    HeldMeans(before, entry, n);
    if before.Some? { LevelKeys(before.value, entry, n); }
    var run := Resolve(before, entry, market, now);
    if d <= n {
      LevelKeys(Opened(before, entry), entry, n);
      HeldMeans(Some(Opened(before, entry)), entry, n);
      StillAnswers(entry, before, Opened(before, entry), n, market, now, run);
    } else {
      AdvanceMeans(entry, market, d);
      if CanAdvance(entry, market, d) {
        var after := FilledState(Opened(before, entry), market, d);
        FilledStateLevel(Opened(before, entry), entry, market, n, d);
        LevelKeys(after, entry, d);
        HeldMeans(Some(after), entry, d);
        AdvancedAnswers(entry, before, after, n, d, market, now, run);
      }
    }
  }

  lemma StillAnswers(entry: Entry, before: Option<Resolution>, after: Resolution, n: nat, market: Market, now: int,
                     run: RunOutcome)
    requires entry.candidates != [] && SharedReference(entry)
    requires !IsBehind(before, Reference(entry), now) && Due(Reference(entry), now) <= n
    requires (before.None? ==> n == 0) && (before.Some? ==> KeysAre(before.value, |entry.candidates|, n))
    requires KeysAre(after, |entry.candidates|, n) && Held(Some(after)) == Held(before)
    requires run == RunOutcome(Some(after), Ok(Summary(false, 0)))
    ensures RunAnswers(entry, before, market, now, run)
  {
    LevelHoldsWhatIsDue(before, after, entry, n, n, now);
    assert |entry.candidates| * 0 == 0;
  }

  lemma AdvancedAnswers(entry: Entry, before: Option<Resolution>, after: Resolution, n: nat, d: nat, market: Market,
                        now: int, run: RunOutcome)
    requires entry.candidates != [] && SharedReference(entry) && IsBehind(before, Reference(entry), now)
    requires Due(Reference(entry), now) == d > n
    requires (before.None? ==> n == 0) && (before.Some? ==> KeysAre(before.value, |entry.candidates|, n))
    requires KeysAre(after, |entry.candidates|, d) && Held(Some(after)) == d && Held(before) == n
    requires HorizonsDue(Reference(entry), now) == d
    requires forall i :: 0 <= i < |entry.candidates| ==> Completes(entry.candidates[i], market, d)
    requires run == RunOutcome(Some(after), Ok(Summary(true, OfEach(|entry.candidates|, d - n))))
    ensures RunAnswers(entry, before, market, now, run)
  {
    LevelHoldsWhatIsDue(before, after, entry, n, d, now);
    OfEachIsProduct(|entry.candidates|, d - n);
  }

  // ---------------------------------------------------------------- artifacts of any kind

  /** The horizon has come due and is not resolved. */
  predicate IsOwed(candidate: CandidateState, reference: int, now: int, h: Horizon) {
    h !in candidate.resolved && reference + DueAfter(h) <= now
  }

  function Owed(candidate: CandidateState, reference: int, now: int): seq<Horizon> {
    (if IsOwed(candidate, reference, now, H4) then [H4] else [])
    + (if IsOwed(candidate, reference, now, H8) then [H8] else [])
    + (if IsOwed(candidate, reference, now, H12) then [H12] else [])
  }

  lemma OwedOneMore(horizons: seq<Horizon>, h: Horizon, candidate: CandidateState, reference: int, now: int)
    requires h in {H4, H8, H12}
    ensures Unresolved(horizons + [h], candidate.resolved, reference, now)
         == Unresolved(horizons, candidate.resolved, reference, now)
            + if IsOwed(candidate, reference, now, h) then [h] else []
  {
    assert (horizons + [h])[..|horizons|] == horizons;
  }

  lemma {:induction false} OwedMeans(candidate: CandidateState, reference: int, now: int)
    ensures Unresolved(Contracts(), candidate.resolved, reference, now) == Owed(candidate, reference, now)
  {
    OwedOneMore([], H4, candidate, reference, now);
    OwedOneMore([H4], H8, candidate, reference, now);
    OwedOneMore([H4, H8], H12, candidate, reference, now);
    assert [] + [H4] == [H4] && [H4] + [H8] == [H4, H8] && [H4, H8] + [H12] == Contracts();
  }

  /** The last candidate of the symbol that is owed anything. */
  ghost predicate IsLastOwed(candidates: seq<CandidateState>, reference: int, now: int, symbol: string, i: int) {
    && 0 <= i < |candidates| && candidates[i].symbol == symbol && Owed(candidates[i], reference, now) != []
    && forall j :: i < j < |candidates| && candidates[j].symbol == symbol ==> Owed(candidates[j], reference, now) == []
  }

  lemma LastOwedOneMore(candidates: seq<CandidateState>, reference: int, now: int, symbol: string, i: int)
    requires candidates != []
    ensures var n := |candidates| - 1;
            IsLastOwed(candidates, reference, now, symbol, i)
            <==> if candidates[n].symbol == symbol && Owed(candidates[n], reference, now) != [] then i == n
                 else IsLastOwed(candidates[..n], reference, now, symbol, i)
  {
  }

  /** What is fetched for the symbol, if anything: what its last candidate that is owed anything is owed. */
  ghost predicate IsFetched(eligible: map<string, seq<Horizon>>, candidates: seq<CandidateState>, reference: int, now: int,
                            symbol: string) {
    && (symbol in eligible <==> exists i :: IsLastOwed(candidates, reference, now, symbol, i))
    && forall i :: IsLastOwed(candidates, reference, now, symbol, i) ==>
         symbol in eligible && eligible[symbol] == Owed(candidates[i], reference, now)
  }

  lemma {:induction false} EligibleMeans(candidates: seq<CandidateState>, reference: int, now: int, symbol: string)
    ensures IsFetched(Eligible(candidates, reference, now), candidates, reference, now, symbol)
  {
    if candidates != [] {
      var n := |candidates| - 1;
      EligibleMeans(candidates[..n], reference, now, symbol);
      OwedMeans(candidates[n], reference, now);
      FetchedOneMore(candidates, reference, now, symbol, Eligible(candidates[..n], reference, now),
                     Eligible(candidates, reference, now));
    }
  }

  lemma FetchedOneMore(candidates: seq<CandidateState>, reference: int, now: int, symbol: string,
                       before: map<string, seq<Horizon>>, after: map<string, seq<Horizon>>)
    requires candidates != [] && IsFetched(before, candidates[..|candidates| - 1], reference, now, symbol)
    requires var last := candidates[|candidates| - 1];
             after == if Owed(last, reference, now) == [] then before
                      else before[last.symbol := Owed(last, reference, now)]
    ensures IsFetched(after, candidates, reference, now, symbol)
  {
    var n := |candidates| - 1;
    if candidates[n].symbol == symbol && Owed(candidates[n], reference, now) != [] {
      forall i ensures IsLastOwed(candidates, reference, now, symbol, i) <==> i == n {
        LastOwedOneMore(candidates, reference, now, symbol, i);
      }
      assert IsLastOwed(candidates, reference, now, symbol, n);
    } else {
      forall i ensures IsLastOwed(candidates, reference, now, symbol, i)
                  <==> IsLastOwed(candidates[..n], reference, now, symbol, i)
      {
        LastOwedOneMore(candidates, reference, now, symbol, i);
      }
      assert symbol in after <==> symbol in before;
      assert symbol in after ==> after[symbol] == before[symbol];
    }
  }

  /** No result contradicts another, or what is already there. */
  ghost predicate Consistent(resolved: map<Horizon, HorizonResult>, results: seq<HorizonResult>) {
    && (forall i :: 0 <= i < |results| && results[i].horizon in resolved ==> resolved[results[i].horizon] == results[i])
    && forall i, j :: 0 <= i < j < |results| && results[i].horizon == results[j].horizon ==> results[i] == results[j]
  }

  lemma ConsistentOneMore(resolved: map<Horizon, HorizonResult>, results: seq<HorizonResult>, last: HorizonResult,
                          merged: map<Horizon, HorizonResult>)
    requires Consistent(resolved, results) && Merged(resolved, results, merged)
    ensures Consistent(resolved, results + [last]) <==> (last.horizon in merged ==> merged[last.horizon] == last)
    ensures Consistent(resolved, results + [last]) ==> Merged(resolved, results + [last], merged[last.horizon := last])
  {
    var longer := results + [last];
    assert forall i :: 0 <= i < |results| ==> longer[i] == results[i];
    if last.horizon in merged && merged[last.horizon] != last {
      if last.horizon !in resolved {
        var i :| 0 <= i < |results| && results[i].horizon == last.horizon;
        assert longer[i] == results[i] && longer[|results|] == last;
      } else {
        assert longer[|results|] == last;
      }
    }
    if Consistent(resolved, longer) {
      forall h ensures h in merged[last.horizon := last]
                  <==> h in resolved || exists i :: 0 <= i < |longer| && longer[i].horizon == h
      {
        if i :| 0 <= i < |results| && results[i].horizon == h { assert longer[i].horizon == h; }
        if h == last.horizon { assert longer[|results|].horizon == h; }
      }
    }
  }

  /** What is merged: everything there and every result, with the count of the horizons added. */
  ghost predicate IsMerged(resolved: map<Horizon, HorizonResult>, results: seq<HorizonResult>, merge: Merge) {
    Merged(resolved, results, merge.resolved) && |merge.resolved| == |resolved| + merge.added
  }

  lemma MergeOneMore(resolved: map<Horizon, HorizonResult>, results: seq<HorizonResult>, last: HorizonResult,
                     before: Merge)
    requires Consistent(resolved, results) && IsMerged(resolved, results, before)
    ensures MergeOnce(before.resolved, last).Ok? <==> Consistent(resolved, results + [last])
    ensures MergeOnce(before.resolved, last).Ok? ==>
              var after := MergeOnce(before.resolved, last).value;
              IsMerged(resolved, results + [last], Merge(after.resolved, before.added + after.added))
  {
    ConsistentOneMore(resolved, results, last, before.resolved);
    if last.horizon in before.resolved && before.resolved[last.horizon] == last {
      assert before.resolved[last.horizon := last] == before.resolved;
    }
  }

  lemma FewerConsistent(resolved: map<Horizon, HorizonResult>, results: seq<HorizonResult>, last: HorizonResult)
    ensures Consistent(resolved, results + [last]) ==> Consistent(resolved, results)
  {
    assert forall i :: 0 <= i < |results| ==> (results + [last])[i] == results[i];
  }

  /** Results are merged if and only if none contradicts another or what is there; then what was there
      stays, every result is in, and the count is that of the horizons added. */
  lemma {:induction false} MergeMeans(resolved: map<Horizon, HorizonResult>, results: seq<HorizonResult>)
    ensures MergeAll(resolved, results).Ok? <==> Consistent(resolved, results)
    ensures MergeAll(resolved, results).Ok? ==> IsMerged(resolved, results, MergeAll(resolved, results).value)
  {
    if results != [] {
      var shorter, last := results[..|results| - 1], results[|results| - 1];
      MergeMeans(resolved, shorter);
      FewerConsistent(resolved, shorter, last);
      if MergeAll(resolved, shorter).Ok? { MergeOneMore(resolved, shorter, last, MergeAll(resolved, shorter).value); }
      assert shorter + [last] == results;
    }
  }
}
