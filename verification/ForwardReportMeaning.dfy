/** What the forward validator reports, in the fields of the artifact and of the entry, and what its
    verdicts say of the closes that the resolver was shown. */
module ForwardReportMeaning {
  import opened Wrappers
  import opened ForwardOutcome
  import opened ForwardRuns
  import opened ForwardConfluence
  import opened ForwardValidator
  import opened ForwardVerdicts
  import opened ForwardMeaning

  // ---------------------------------------------------------------- reports

  /** How a return speaks for a trend. */
  function VoteFor(trend: Trend, returnPct: real): Vote {
    if returnPct == 0.0 then Flat
    else if (returnPct > 0.0 && trend == Uptrend) || (returnPct < 0.0 && trend == Downtrend) then Support
    else Oppose
  }

  ghost predicate MayReport(state: CandidateState, entry: EntryCandidate, reference: int) {
    forall h :: h in state.resolved && !h.OtherHorizon? ==>
      && state.resolved[h].targetAt == reference + DueAfter(h)
      && (state.resolved[h].returnPct == 0.0 || entry.trend in {Uptrend, Downtrend})
  }

  function Those(four: bool, eight: bool, twelve: bool): seq<Horizon> {
    (if four then [H4] else []) + (if eight then [H8] else []) + (if twelve then [H12] else [])
  }

  /** The horizons that cast the vote. */
  function Cast(votes: map<Horizon, Vote>, vote: Vote): set<Horizon> {
    set h | h in votes && votes[h] == vote
  }

  ghost predicate IsReport(report: CandidateReport, state: CandidateState, entry: EntryCandidate) {
    && report.symbol == state.symbol && report.referencePrice == state.referencePrice && report.trend == entry.trend
    && report.present == Those(H4 in state.resolved, H8 in state.resolved, H12 in state.resolved)
    && report.missing == Those(H4 !in state.resolved, H8 !in state.resolved, H12 !in state.resolved)
    && (forall h :: h in report.votes <==> h in state.resolved && !h.OtherHorizon?)
    && (forall h :: h in report.votes && h in state.resolved ==>
          report.votes[h] == VoteFor(entry.trend, state.resolved[h].returnPct))
    && report.status
       == (if H12 !in state.resolved then Pending
           else if |Cast(report.votes, Support)| > |Cast(report.votes, Oppose)| then Valid
           else if |Cast(report.votes, Oppose)| > |Cast(report.votes, Support)| then Invalid
           else Inconclusive)
  }

  lemma ThreeHorizons()
    ensures Contracts() == [H4, H8, H12] && Contracts()[..2] == [H4, H8] && [H4, H8][..1] == [H4] && [H4][..0] == []
  {
  }

  /** One horizon more. */
  function Voted(before: Result<map<Horizon, Vote>, Refusal>, h: Horizon, resolved: map<Horizon, HorizonResult>,
                 trend: Trend, reference: int): Result<map<Horizon, Vote>, Refusal>
  {
    if before.Err? || h !in resolved then before
    else if resolved[h].targetAt != reference + DueAfter(h) then Err(TargetDiffers)
    else if resolved[h].returnPct != 0.0 && trend !in {Uptrend, Downtrend} then Err(TrendUnsupported)
    else Ok(before.value[h := VoteFor(trend, resolved[h].returnPct)])
  }

  lemma VotesOneMore(horizons: seq<Horizon>, h: Horizon, resolved: map<Horizon, HorizonResult>, trend: Trend,
                     reference: int)
    requires h in {H4, H8, H12}
    ensures Votes(horizons + [h], resolved, trend, reference)
         == Voted(Votes(horizons, resolved, trend, reference), h, resolved, trend, reference)
  {
    assert (horizons + [h])[..|horizons|] == horizons;
  }

  lemma VotesInTurn(resolved: map<Horizon, HorizonResult>, trend: Trend, reference: int)
    ensures Votes(Contracts(), resolved, trend, reference)
         == Voted(Voted(Voted(Ok(map[]), H4, resolved, trend, reference), H8, resolved, trend, reference), H12, resolved,
                  trend, reference)
  {
    VotesOneMore([], H4, resolved, trend, reference);
    VotesOneMore([H4], H8, resolved, trend, reference);
    VotesOneMore([H4, H8], H12, resolved, trend, reference);
    assert [] + [H4] == [H4] && [H4] + [H8] == [H4, H8] && [H4, H8] + [H12] == Contracts();
  }

  lemma {:induction false} PresentInTurn(resolved: map<Horizon, HorizonResult>)
    ensures Present(Contracts(), resolved) == Those(H4 in resolved, H8 in resolved, H12 in resolved)
    ensures Missing(Contracts(), resolved) == Those(H4 !in resolved, H8 !in resolved, H12 !in resolved)
  {
    ThreeHorizons();
    assert Present([H4], resolved) == Present([], resolved) + if H4 in resolved then [H4] else [];
    assert Present([H4, H8], resolved) == Present([H4], resolved) + if H8 in resolved then [H8] else [];
    assert Missing([H4], resolved) == Missing([], resolved) + if H4 in resolved then [] else [H4];
    assert Missing([H4, H8], resolved) == Missing([H4], resolved) + if H8 in resolved then [] else [H8];
  }

  function IfCast(votes: map<Horizon, Vote>, h: Horizon, vote: Vote): (one: set<Horizon>)
    ensures |one| <= 1 && forall other :: other in one ==> other == h
  {
    if h in votes && votes[h] == vote then {h} else {}
  }

  lemma CountOneMore(horizons: seq<Horizon>, h: Horizon, votes: map<Horizon, Vote>, vote: Vote)
    ensures CountVotes(horizons + [h], votes, vote) == CountVotes(horizons, votes, vote) + |IfCast(votes, h, vote)|
  {
    assert (horizons + [h])[..|horizons|] == horizons;
  }

  lemma {:induction false} CastOnes(votes: map<Horizon, Vote>, vote: Vote)
    requires forall h :: h in votes ==> !h.OtherHorizon?
    ensures Cast(votes, vote) == IfCast(votes, H4, vote) + IfCast(votes, H8, vote) + IfCast(votes, H12, vote)
  {
  }

  lemma {:induction false} CastInTurn(votes: map<Horizon, Vote>, vote: Vote)
    requires forall h :: h in votes ==> !h.OtherHorizon?
    ensures |Cast(votes, vote)| == |IfCast(votes, H4, vote)| + |IfCast(votes, H8, vote)| + |IfCast(votes, H12, vote)|
  {
    CastOnes(votes, vote);
    DisjointCount(IfCast(votes, H4, vote), IfCast(votes, H8, vote), IfCast(votes, H12, vote));
  }

  lemma DisjointCount(a: set<Horizon>, b: set<Horizon>, c: set<Horizon>)
    requires a * b == {} && (a + b) * c == {}
    ensures |a + b + c| == |a| + |b| + |c|
  {
    assert |a + b| == |a| + |b|;
  }

  lemma {:induction false} CountInTurn(votes: map<Horizon, Vote>, vote: Vote)
    requires forall h :: h in votes ==> !h.OtherHorizon?
    ensures CountVotes(Contracts(), votes, vote) == |Cast(votes, vote)|
  {
    CastInTurn(votes, vote);
    CountOneMore([], H4, votes, vote);
    CountOneMore([H4], H8, votes, vote);
    CountOneMore([H4, H8], H12, votes, vote);
    assert [] + [H4] == [H4] && [H4] + [H8] == [H4, H8] && [H4, H8] + [H12] == Contracts();
  }

  /** A candidate is reported on if and only if its results have the targets of their horizons and
      speak for or against a known trend; the report lists what is there and what is missing, and
      its verdict is the majority of the votes once the last horizon is there. */
  lemma {:induction false} ReportMeans(state: CandidateState, entry: EntryCandidate, reference: int)
    ensures CandidateReportOf(state, entry, reference).Ok? <==> MayReport(state, entry, reference)
    ensures CandidateReportOf(state, entry, reference).Ok? ==>
              IsReport(CandidateReportOf(state, entry, reference).value, state, entry)
  {
    VotesInTurn(state.resolved, entry.trend, reference);
    PresentInTurn(state.resolved);
    if CandidateReportOf(state, entry, reference).Ok? {
      var report := CandidateReportOf(state, entry, reference).value;
      CountInTurn(report.votes, Support);
      CountInTurn(report.votes, Oppose);
    }
  }

  // ---------------------------------------------------------------- validation

  ghost predicate SoundArtifact(state: Resolution) {
    && state.snapshotType == "v4_forward_outcome_resolution" && state.schemaVersion == 1
    && state.entrySnapshotType == "v4_outcome_tracker_entry" && state.entrySchemaVersion == 1 && state.candidates != []
    && (forall i :: 0 <= i < |state.candidates| ==>
          forall h :: h in state.candidates[i].resolved ==>
            !h.OtherHorizon? && state.candidates[i].resolved[h].horizon == h)
    && forall i, j :: 0 <= i < j < |state.candidates| ==> state.candidates[i].symbol != state.candidates[j].symbol
  }

  ghost predicate SoundSnapshot(entry: Entry) {
    && entry.snapshotType == "v4_outcome_tracker_entry" && entry.schemaVersion == 1 && entry.candidates != []
    && (forall i :: 0 <= i < |entry.candidates| ==> entry.candidates[i].trend in {Uptrend, Downtrend})
    && (forall i, j :: 0 <= i < j < |entry.candidates| ==> entry.candidates[i].symbol != entry.candidates[j].symbol)
    && forall i :: 0 <= i < |entry.candidates| ==>
         entry.candidates[i].referenceCandleAt == entry.candidates[0].referenceCandleAt
  }

  ghost predicate BelongTogether(state: Resolution, entry: Entry) {
    && state.entryCapturedAt == entry.capturedAt && |state.candidates| == |entry.candidates|
    && (forall i :: 0 <= i < |state.candidates| ==>
          && state.referenceCandleAt == entry.candidates[i].referenceCandleAt
          && state.candidates[i].symbol == entry.candidates[i].symbol
          && state.candidates[i].referencePrice == entry.candidates[i].referencePrice)
    && AllReport(state.candidates, entry.candidates, state.referenceCandleAt)
  }

  lemma SoundArtifactMeans(state: Resolution)
    ensures SoundArtifact(state) <==> ResolvedSchemaError(state) == None
  {
    forall i | 0 <= i < |state.candidates|
      ensures HorizonsKnown(state.candidates[i].resolved) && HorizonsLabelled(state.candidates[i].resolved)
         <==> forall h :: h in state.candidates[i].resolved ==>
                !h.OtherHorizon? && state.candidates[i].resolved[h].horizon == h
    {
    }
    HorizonsErrorMeans(state.candidates);
    SymbolsRepeat(state.candidates);
  }

  lemma SymbolsRepeat(candidates: seq<CandidateState>)
    ensures HasDuplicateSymbols(StateSymbols(candidates))
       <==> exists i, j :: 0 <= i < j < |candidates| && candidates[i].symbol == candidates[j].symbol
  {
    if i, j :| 0 <= i < j < |candidates| && candidates[i].symbol == candidates[j].symbol {
      assert StateSymbols(candidates)[i] == StateSymbols(candidates)[j];
    }
  }

  lemma SoundSnapshotMeans(entry: Entry)
    ensures SoundSnapshot(entry) <==> EntrySchemaError(entry) == None
  {
    if i, j :| 0 <= i < j < |entry.candidates| && entry.candidates[i].symbol == entry.candidates[j].symbol {
      assert EntrySymbols(entry.candidates)[i] == EntrySymbols(entry.candidates)[j];
    }
  }

  ghost predicate AllReport(states: seq<CandidateState>, entries: seq<EntryCandidate>, reference: int)
    requires |states| == |entries|
  {
    forall i :: 0 <= i < |states| ==> MayReport(states[i], entries[i], reference)
  }

  ghost predicate AreReports(reports: seq<CandidateReport>, states: seq<CandidateState>, entries: seq<EntryCandidate>)
    requires |states| == |entries|
  {
    |reports| == |states| && forall i :: 0 <= i < |states| ==> IsReport(reports[i], states[i], entries[i])
  }

  lemma AllReportOneMore(states: seq<CandidateState>, entries: seq<EntryCandidate>, reference: int, n: nat)
    requires |states| == |entries| == n + 1
    ensures AllReport(states, entries, reference)
       <==> AllReport(states[..n], entries[..n], reference) && MayReport(states[n], entries[n], reference)
  {
    if AllReport(states[..n], entries[..n], reference) && MayReport(states[n], entries[n], reference) {
      forall i | 0 <= i < |states| ensures MayReport(states[i], entries[i], reference) {
        if i < n { assert states[i] == states[..n][i] && entries[i] == entries[..n][i]; }
      }
    }
  }

  lemma AreReportsOneMore(reports: seq<CandidateReport>, report: CandidateReport, states: seq<CandidateState>,
                          entries: seq<EntryCandidate>, n: nat)
    requires |states| == |entries| == n + 1
    requires AreReports(reports, states[..n], entries[..n]) && IsReport(report, states[n], entries[n])
    ensures AreReports(reports + [report], states, entries)
  {
    forall i | 0 <= i < |states| ensures IsReport((reports + [report])[i], states[i], entries[i]) {
      if i < n { assert states[i] == states[..n][i] && entries[i] == entries[..n][i]; }
    }
  }

  lemma {:induction false} ReportsMean(states: seq<CandidateState>, entries: seq<EntryCandidate>, reference: int)
    requires |states| == |entries|
    ensures Reports(states, entries, reference).Ok? <==> AllReport(states, entries, reference)
    ensures Reports(states, entries, reference).Ok? ==>
              AreReports(Reports(states, entries, reference).value, states, entries)
  {
    if states != [] {
      var n := |states| - 1;
      ReportsMean(states[..n], entries[..n], reference);
      ReportMeans(states[n], entries[n], reference);
      AllReportOneMore(states, entries, reference, n);
      if Reports(states, entries, reference).Ok? {
        AreReportsOneMore(Reports(states[..n], entries[..n], reference).value,
                          CandidateReportOf(states[n], entries[n], reference).value, states, entries, n);
      }
    }
  }

  function Ending(reports: seq<CandidateReport>, status: Status): set<int> {
    set i | 0 <= i < |reports| && reports[i].status == status
  }

  lemma {:induction false} HavingMeans(reports: seq<CandidateReport>, status: Status)
    ensures Having(reports, status) == |Ending(reports, status)|
  {
    if reports != [] {
      var n := |reports| - 1;
      HavingMeans(reports[..n], status);
      assert Ending(reports, status) == Ending(reports[..n], status) + if reports[n].status == status then {n} else {};
    }
  }

  ghost predicate IsWholeReport(report: Report, state: Resolution, entry: Entry) {
    && |state.candidates| == |entry.candidates| && AreReports(report.candidates, state.candidates, entry.candidates)
    && report.counts
       == Counts(|state.candidates|, |Ending(report.candidates, Pending)|, |Ending(report.candidates, Valid)|,
                 |Ending(report.candidates, Invalid)|, |Ending(report.candidates, Inconclusive)|)
    && (report.complete <==> forall i :: 0 <= i < |report.candidates| ==> report.candidates[i].status != Pending)
  }

  /** An artifact is validated if and only if it and the entry file it names are sound and belong
      together; the report is then on every candidate, with its tallies. */
  lemma {:induction false} ValidationMeans(state: Resolution, files: map<string, Entry>)
    ensures Validation(state, files).Ok?
       <==> && SoundArtifact(state) && state.entryArtifact in files && SoundSnapshot(files[state.entryArtifact])
            && BelongTogether(state, files[state.entryArtifact])
    ensures Validation(state, files).Ok? ==>
              IsWholeReport(Validation(state, files).value, state, files[state.entryArtifact])
  {
    SoundArtifactMeans(state);
    if state.entryArtifact in files {
      var entry := files[state.entryArtifact];
      SoundSnapshotMeans(entry);
      if ResolvedSchemaError(state) == None && EntrySchemaError(entry) == None { LinkedMeans(state, entry); }
      if Validation(state, files).Ok? {
        WholeReport(Validation(state, files).value.candidates, state, entry);
      }
    }
  }

  lemma LinkedMeans(state: Resolution, entry: Entry)
    requires SoundArtifact(state) && SoundSnapshot(entry)
    ensures BelongTogether(state, entry)
       <==> && IdentityError(state, entry) == None
            && Reports(state.candidates, entry.candidates, state.referenceCandleAt).Ok?
  {
    if |state.candidates| == |entry.candidates| {
      CandidatesDifferMeans(state.candidates, entry.candidates);
      ReportsMean(state.candidates, entry.candidates, state.referenceCandleAt);
    }
  }

  lemma NonePending(reports: seq<CandidateReport>)
    ensures Having(reports, Pending) == 0 <==> forall i :: 0 <= i < |reports| ==> reports[i].status != Pending
  {
    HavingMeans(reports, Pending);
    if i :| 0 <= i < |reports| && reports[i].status == Pending { assert i in Ending(reports, Pending); }
    if Ending(reports, Pending) != {} { var i :| i in Ending(reports, Pending); }
  }

  lemma CountsMean(reports: seq<CandidateReport>)
    ensures CountsOf(reports) == Counts(|reports|, |Ending(reports, Pending)|, |Ending(reports, Valid)|,
                                        |Ending(reports, Invalid)|, |Ending(reports, Inconclusive)|)
  {
    HavingMeans(reports, Pending);
    HavingMeans(reports, Valid);
    HavingMeans(reports, Invalid);
    HavingMeans(reports, Inconclusive);
  }

  lemma WholeReport(reports: seq<CandidateReport>, state: Resolution, entry: Entry)
    requires |state.candidates| == |entry.candidates|
    requires Reports(state.candidates, entry.candidates, state.referenceCandleAt) == Ok(reports)
    ensures IsWholeReport(Report(Having(reports, Pending) == 0, CountsOf(reports), reports), state, entry)
  {
    ReportsMean(state.candidates, entry.candidates, state.referenceCandleAt);
    CountsMean(reports);
    NonePending(reports);
  }

  // ---------------------------------------------------------------- refusals

  ghost function HorizonsFault(candidate: CandidateState): Option<Refusal> {
    if exists h :: h in candidate.resolved && h.OtherHorizon? then Some(HorizonUnknown)
    else if exists h :: h in candidate.resolved && candidate.resolved[h].horizon != h then Some(HorizonMislabelled)
    else None
  }

  ghost predicate FirstHorizonsFault(candidates: seq<CandidateState>, refusal: Refusal) {
    exists i :: && 0 <= i < |candidates| && HorizonsFault(candidates[i]) == Some(refusal)
                && forall j :: 0 <= j < i ==> HorizonsFault(candidates[j]) == None
  }

  ghost function PairFault(state: CandidateState, entry: EntryCandidate): Option<Refusal> {
    if state.symbol != entry.symbol then Some(SymbolDiffers)
    else if state.referencePrice != entry.referencePrice then Some(PriceDiffers)
    else None
  }

  ghost predicate FirstPairFault(states: seq<CandidateState>, entries: seq<EntryCandidate>, refusal: Refusal)
    requires |states| == |entries|
  {
    exists i :: && 0 <= i < |states| && PairFault(states[i], entries[i]) == Some(refusal)
                && forall j :: 0 <= j < i ==> PairFault(states[j], entries[j]) == None
  }

  /** Why an artifact is refused: the first of these that applies. */
  ghost predicate ArtifactRefusedFor(state: Resolution, refusal: Refusal) {
    if state.snapshotType != "v4_forward_outcome_resolution" then refusal == SnapshotTypeWrong
    else if state.schemaVersion != 1 then refusal == SchemaVersionWrong
    else if state.entrySnapshotType != "v4_outcome_tracker_entry" then refusal == EntryTypeWrong
    else if state.entrySchemaVersion != 1 then refusal == EntrySchemaWrong
    else if state.candidates == [] then refusal == CandidatesMissing
    else if exists i :: 0 <= i < |state.candidates| && HorizonsFault(state.candidates[i]) != None then
      FirstHorizonsFault(state.candidates, refusal)
    else refusal == DuplicateSymbols
  }

  ghost predicate SnapshotRefusedFor(entry: Entry, refusal: Refusal) {
    if entry.snapshotType != "v4_outcome_tracker_entry" then refusal == EntryTypeWrong
    else if entry.schemaVersion != 1 then refusal == EntrySchemaWrong
    else if entry.candidates == [] then refusal == CandidatesMissing
    else if exists i :: 0 <= i < |entry.candidates| && entry.candidates[i].trend == OtherTrend then
      refusal == TrendUnsupported
    else if exists i, j :: 0 <= i < j < |entry.candidates| && entry.candidates[i].symbol == entry.candidates[j].symbol then
      refusal == DuplicateSymbols
    else refusal == ReferenceDiffers
  }

  ghost predicate LinkRefusedFor(state: Resolution, entry: Entry, refusal: Refusal)
    requires entry.candidates != []
  {
    if state.entryCapturedAt != entry.capturedAt || state.referenceCandleAt != entry.candidates[0].referenceCandleAt then
      refusal == IdentityDiffers
    else if |state.candidates| != |entry.candidates| then refusal == CountDiffers
    else if exists i :: 0 <= i < |state.candidates| && PairFault(state.candidates[i], entry.candidates[i]) != None then
      FirstPairFault(state.candidates, entry.candidates, refusal)
    else refusal == TargetDiffers
  }

  lemma {:induction false} HorizonsRefusedFor(candidates: seq<CandidateState>)
    ensures match HorizonsError(candidates)
            case Some(refusal) => FirstHorizonsFault(candidates, refusal)
            case None => forall i :: 0 <= i < |candidates| ==> HorizonsFault(candidates[i]) == None
  {
    if candidates != [] {
      HorizonsRefusedFor(candidates[1..]);
      assert HorizonsFault(candidates[0]) == Some(HorizonUnknown) <==> !HorizonsKnown(candidates[0].resolved);
      forall i | 1 <= i < |candidates| ensures candidates[i] == candidates[1..][i - 1] { }
      if HorizonsFault(candidates[0]) == None && HorizonsError(candidates) != None {
        HorizonsFaultLater(candidates, HorizonsError(candidates).value);
      }
    }
  }

  lemma HorizonsFaultLater(candidates: seq<CandidateState>, refusal: Refusal)
    requires candidates != [] && HorizonsFault(candidates[0]) == None && FirstHorizonsFault(candidates[1..], refusal)
    ensures FirstHorizonsFault(candidates, refusal)
  {
    var i :| && 0 <= i < |candidates[1..]| && HorizonsFault(candidates[1..][i]) == Some(refusal)
             && forall j :: 0 <= j < i ==> HorizonsFault(candidates[1..][j]) == None;
    forall j | 0 <= j < i + 1 ensures HorizonsFault(candidates[j]) == None {
      if j > 0 { assert candidates[j] == candidates[1..][j - 1]; }
    }
    assert candidates[i + 1] == candidates[1..][i];
  }

  lemma {:induction false} PairsRefusedFor(states: seq<CandidateState>, entries: seq<EntryCandidate>)
    requires |states| == |entries|
    ensures match CandidatesDiffer(states, entries)
            case Some(refusal) => FirstPairFault(states, entries, refusal)
            case None => forall i :: 0 <= i < |states| ==> PairFault(states[i], entries[i]) == None
  {
    if states != [] {
      PairsRefusedFor(states[1..], entries[1..]);
      forall i | 1 <= i < |states| ensures states[i] == states[1..][i - 1] && entries[i] == entries[1..][i - 1] { }
      if PairFault(states[0], entries[0]) == None && CandidatesDiffer(states, entries) != None {
        PairFaultLater(states, entries, CandidatesDiffer(states, entries).value);
      }
    }
  }

  lemma PairFaultLater(states: seq<CandidateState>, entries: seq<EntryCandidate>, refusal: Refusal)
    requires |states| == |entries| > 0 && PairFault(states[0], entries[0]) == None
    requires FirstPairFault(states[1..], entries[1..], refusal)
    ensures FirstPairFault(states, entries, refusal)
  {
    var i :| && 0 <= i < |states[1..]| && PairFault(states[1..][i], entries[1..][i]) == Some(refusal)
             && forall j :: 0 <= j < i ==> PairFault(states[1..][j], entries[1..][j]) == None;
    forall j | 0 <= j < i + 1 ensures PairFault(states[j], entries[j]) == None {
      if j > 0 { assert states[j] == states[1..][j - 1] && entries[j] == entries[1..][j - 1]; }
    }
    assert states[i + 1] == states[1..][i] && entries[i + 1] == entries[1..][i];
  }

  /** Why a validation is refused: for the artifact, for the file it names, or for the two together. */
  lemma {:induction false} ValidationRefusalMeans(state: Resolution, files: map<string, Entry>)
    requires Validation(state, files).Err?
    ensures var refusal := Validation(state, files).error;
            if !SoundArtifact(state) then ArtifactRefusedFor(state, refusal)
            else if state.entryArtifact !in files then refusal == EntryFileMissing
            else if !SoundSnapshot(files[state.entryArtifact]) then
              SnapshotRefusedFor(files[state.entryArtifact], refusal)
            else LinkRefusedFor(state, files[state.entryArtifact], refusal)
  {
    SoundArtifactMeans(state);
    HorizonsRefusedFor(state.candidates);
    if SoundArtifact(state) && state.entryArtifact in files {
      var entry := files[state.entryArtifact];
      SoundSnapshotMeans(entry);
      if SoundSnapshot(entry) { LinkRefusal(state, entry); } else { SnapshotRefusal(entry); }
    }
  }

  lemma SnapshotRefusal(entry: Entry)
    requires EntrySchemaError(entry) != None
    ensures SnapshotRefusedFor(entry, EntrySchemaError(entry).value)
  {
    if i, j :| 0 <= i < j < |entry.candidates| && entry.candidates[i].symbol == entry.candidates[j].symbol {
      assert EntrySymbols(entry.candidates)[i] == EntrySymbols(entry.candidates)[j];
    }
  }

  lemma LinkRefusal(state: Resolution, entry: Entry)
    requires SoundArtifact(state) && SoundSnapshot(entry)
    ensures IdentityError(state, entry) != None ==> LinkRefusedFor(state, entry, IdentityError(state, entry).value)
    ensures IdentityError(state, entry) == None ==>
              match Reports(state.candidates, entry.candidates, state.referenceCandleAt)
              case Err(refusal) => LinkRefusedFor(state, entry, refusal)
              case Ok(_) => true
  {
    if |state.candidates| == |entry.candidates| {
      PairsRefusedFor(state.candidates, entry.candidates);
      ReportsRefusedFor(state.candidates, entry.candidates, state.referenceCandleAt);
    }
  }

  lemma {:induction false} ReportsRefusedFor(states: seq<CandidateState>, entries: seq<EntryCandidate>, reference: int)
    requires |states| == |entries| && forall i :: 0 <= i < |entries| ==> entries[i].trend in {Uptrend, Downtrend}
    ensures Reports(states, entries, reference).Err? ==> Reports(states, entries, reference).error == TargetDiffers
  {
    if states != [] {
      var n := |states| - 1;
      ReportsRefusedFor(states[..n], entries[..n], reference);
      VotesInTurn(states[n].resolved, entries[n].trend, reference);
    }
  }

  // ---------------------------------------------------------------- verdicts

  lemma SignOfReturn(pct: real, price: real, reference: real)
    requires reference > 0.0 && pct * reference == (price - reference) * 100.0
    ensures pct > 0.0 <==> price > reference
    ensures pct < 0.0 <==> price < reference
  {
    if pct > 0.0 { assert pct * reference > 0.0; }
    if pct < 0.0 { assert (-pct) * reference > 0.0; }
  }

  function Side(close: real, reference: real): int {
    if close > reference then 1 else if close < reference then -1 else 0
  }

  /** The close of the last candle of the horizon's window, in a frame that one of the runs was shown. */
  ghost predicate LastClose(close: real, c: EntryCandidate, h: Horizon, occasions: seq<Occasion>) {
    exists o :: o in occasions && c.symbol in o.market && ClosesAt(o.market[c.symbol], c.referenceCandleAt, h, close)
  }

  ghost predicate ClosesAt(frame: seq<Candle>, reference: int, h: Horizon, close: real) {
    exists window: seq<Candle> ::
      |window| == CandlesOf(h) > 0 && IsWindow(frame, reference, window) && close == window[|window| - 1].close
  }

  lemma {:induction false} ReturnIsLastClose(entry: Entry, occasions: seq<Occasion>, state: Resolution, i: nat, h: Horizon)
    requires Continued(None, entry, occasions) == Some(state)
    requires i < |state.candidates| && h in state.candidates[i].resolved
    ensures i < |entry.candidates| && entry.candidates[i].referencePrice > 0.0
    ensures var r, c := state.candidates[i].resolved[h], entry.candidates[i];
            && LastClose(r.returnPrice, c, h, occasions)
            && (r.returnPct > 0.0 <==> r.returnPrice > c.referencePrice)
            && (r.returnPct < 0.0 <==> r.returnPrice < c.referencePrice)
  {
    ResultsAreTrue(entry, occasions, state, i, h);
    var r, c := state.candidates[i].resolved[h], entry.candidates[i];
    var o :| && o in occasions && c.symbol in o.market
             && TrueOf(r, o.market[c.symbol], c.referencePrice, c.referenceCandleAt, h);
    TrueReturn(r, o.market[c.symbol], c.referencePrice, c.referenceCandleAt, h);
  }

  lemma TrueReturn(r: HorizonResult, frame: seq<Candle>, price: real, reference: int, h: Horizon)
    requires TrueOf(r, frame, price, reference, h)
    ensures price > 0.0 && ClosesAt(frame, reference, h, r.returnPrice)
    ensures r.returnPct > 0.0 <==> r.returnPrice > price
    ensures r.returnPct < 0.0 <==> r.returnPrice < price
  {
    var window :| |window| == CandlesOf(h) && IsWindow(frame, reference, window) && SumsUp(r, window, price);
    SignOfReturn(r.returnPct, r.returnPrice, price);
    assert |window| == CandlesOf(h) > 0 && IsWindow(frame, reference, window);
  }

  /** The verdict on a candidate of any artifact the resolver has written, from the closes alone: it
      is pending until the twelve-hour outcome is there, and then it counts how many of the last
      closes of the three windows lie over the reference price and how many under it. */
  lemma {:induction false} VerdictFromCloses(entry: Entry, occasions: seq<Occasion>, state: Resolution, i: nat)
    requires Continued(None, entry, occasions) == Some(state) && i < |state.candidates|
    requires i < |entry.candidates| && entry.candidates[i].trend in {Uptrend, Downtrend}
    ensures CandidateReportOf(state.candidates[i], entry.candidates[i], state.referenceCandleAt).Ok?
    ensures var status := CandidateReportOf(state.candidates[i], entry.candidates[i], state.referenceCandleAt).value.status;
            if H12 !in state.candidates[i].resolved then status == Pending
            else exists four, eight, twelve ::
                   && LastClose(four, entry.candidates[i], H4, occasions)
                   && LastClose(eight, entry.candidates[i], H8, occasions)
                   && LastClose(twelve, entry.candidates[i], H12, occasions)
                   && status == Verdict(entry.candidates[i], four, eight, twelve)
  {
    var n := LevelOf(entry, occasions, state, i);
    VerdictIsTheMajority(state.candidates[i], entry.candidates[i], state.referenceCandleAt, n);
    if n == 3 { DecidedFromCloses(entry, occasions, state, i); }
  }

  lemma {:induction false} LevelOf(entry: Entry, occasions: seq<Occasion>, state: Resolution, i: nat) returns (n: nat)
    requires Continued(None, entry, occasions) == Some(state) && i < |state.candidates|
    ensures n <= 3 && i < |entry.candidates| && state.referenceCandleAt == Reference(entry)
    ensures ResolvedTo(state.candidates[i].resolved, state.referenceCandleAt, n)
  {
    if !EntryAccepted(entry) { RefusedEntryWritesNothing(entry, occasions); }
    ArtifactIsTrue(entry, occasions);
    n :| At(Continued(None, entry, occasions), entry, n);
    CandidateOfEntry(state, entry, n, i);
  }

  lemma {:induction false} DecidedFromCloses(entry: Entry, occasions: seq<Occasion>, state: Resolution, i: nat)
    requires Continued(None, entry, occasions) == Some(state) && i < |state.candidates| && i < |entry.candidates|
    requires ResolvedTo(state.candidates[i].resolved, state.referenceCandleAt, 3)
    requires entry.candidates[i].trend in {Uptrend, Downtrend}
    ensures var c, resolved := entry.candidates[i], state.candidates[i].resolved;
            && LastClose(resolved[H4].returnPrice, c, H4, occasions)
            && LastClose(resolved[H8].returnPrice, c, H8, occasions)
            && LastClose(resolved[H12].returnPrice, c, H12, occasions)
            && CandidateReportOf(state.candidates[i], c, state.referenceCandleAt).Ok?
            && CandidateReportOf(state.candidates[i], c, state.referenceCandleAt).value.status
               == Verdict(c, resolved[H4].returnPrice, resolved[H8].returnPrice, resolved[H12].returnPrice)
  {
    ReturnIsLastClose(entry, occasions, state, i, H4);
    ReturnIsLastClose(entry, occasions, state, i, H8);
    ReturnIsLastClose(entry, occasions, state, i, H12);
    DecidedFromSigns(state.candidates[i], entry.candidates[i], state.referenceCandleAt);
  }

  lemma DecidedFromSigns(state: CandidateState, c: EntryCandidate, reference: int)
    requires ResolvedTo(state.resolved, reference, 3) && c.trend in {Uptrend, Downtrend}
    requires forall h :: h in state.resolved ==>
               && (state.resolved[h].returnPct > 0.0 <==> state.resolved[h].returnPrice > c.referencePrice)
               && (state.resolved[h].returnPct < 0.0 <==> state.resolved[h].returnPrice < c.referencePrice)
    ensures CandidateReportOf(state, c, reference).Ok?
    ensures CandidateReportOf(state, c, reference).value.status
         == Verdict(c, state.resolved[H4].returnPrice, state.resolved[H8].returnPrice, state.resolved[H12].returnPrice)
  {
    VerdictIsTheMajority(state, c, reference, 3);
  }

  /** Over the reference price speaks for an uptrend and against a downtrend. */
  function Verdict(c: EntryCandidate, four: real, eight: real, twelve: real): Status {
    var over := Side(four, c.referencePrice) + Side(eight, c.referencePrice) + Side(twelve, c.referencePrice);
    if over == 0 then Inconclusive
    else if (over > 0 && c.trend == Uptrend) || (over < 0 && c.trend == Downtrend) then Valid
    else Invalid
  }
}
