/** The resolver and the validator together: what the one writes the other accepts, the verdict is
    the majority of the three horizons, and once there is a verdict it never changes. */
module ForwardVerdicts {
  import opened Wrappers
  import opened ForwardOutcome
  import opened ForwardRuns
  import opened ForwardConfluence
  import opened ForwardValidator

  // ---------------------------------------------------------------- votes

  lemma {:induction false} VotesAre(horizons: seq<Horizon>, resolved: map<Horizon, HorizonResult>, trend: Trend,
                                    reference: int)
    requires trend != OtherTrend && forall h :: h in resolved ==> resolved[h].targetAt == TargetAt(reference, h)
    ensures Votes(horizons, resolved, trend, reference).Ok?
    ensures forall h :: h in Votes(horizons, resolved, trend, reference).value <==> h in horizons && h in resolved
    ensures forall h :: h in Votes(horizons, resolved, trend, reference).value ==>
              Ok(Votes(horizons, resolved, trend, reference).value[h]) == VoteOf(trend, resolved[h].returnPct)
  {
    if horizons != [] {
      var shorter, last := horizons[..|horizons| - 1], horizons[|horizons| - 1];
      VotesAre(shorter, resolved, trend, reference);
      assert horizons == shorter + [last];
    }
  }

  /** How a return backs a trend: +1 in its direction, -1 against it. */
  function Backing(trend: Trend, returnPct: real): int {
    var sign := if returnPct > 0.0 then 1 else if returnPct < 0.0 then -1 else 0;
    match trend case Uptrend => sign case Downtrend => -sign case OtherTrend => 0
  }

  function Weight(vote: Vote): int { match vote case Support => 1 case Oppose => -1 case Flat => 0 }

  lemma CountOfThree(votes: map<Horizon, Vote>, vote: Vote)
    requires votes.Keys == {H4, H8, H12}
    ensures CountVotes(Contracts(), votes, vote)
         == (if votes[H4] == vote then 1 else 0) + (if votes[H8] == vote then 1 else 0) + (if votes[H12] == vote then 1 else 0)
  {
    assert Contracts()[..2] == [H4, H8] && [H4, H8][..1] == [H4] && [H4][..0] == [];
    assert CountVotes([H4], votes, vote) == CountVotes([H4][..0], votes, vote) + if votes[H4] == vote then 1 else 0;
    assert CountVotes([H4, H8], votes, vote)
        == CountVotes([H4, H8][..1], votes, vote) + if votes[H8] == vote then 1 else 0;
  }

  lemma StatusOfThree(votes: map<Horizon, Vote>)
    requires votes.Keys == {H4, H8, H12}
    ensures StatusOf(votes) == (var sum := Weight(votes[H4]) + Weight(votes[H8]) + Weight(votes[H12]);
                                if sum > 0 then Valid else if sum < 0 then Invalid else Inconclusive)
  {
    CountOfThree(votes, Support);
    CountOfThree(votes, Oppose);
  }

  /** The verdict of a candidate resolved to n horizons: none before the third, and then the side
      that the returns of the three horizons back more often. */
  lemma VerdictIsTheMajority(state: CandidateState, entry: EntryCandidate, reference: int, n: nat)
    requires n <= 3 && ResolvedTo(state.resolved, reference, n) && entry.trend != OtherTrend
    ensures CandidateReportOf(state, entry, reference).Ok?
    ensures n < 3 ==> CandidateReportOf(state, entry, reference).value.status == Pending
    ensures n == 3 ==>
              CandidateReportOf(state, entry, reference).value.status
              == (var sum := Backing(entry.trend, state.resolved[H4].returnPct) + Backing(entry.trend,
                                                                                          state.resolved[H8].returnPct)
                             + Backing(entry.trend, state.resolved[H12].returnPct);
                  if sum > 0 then Valid else if sum < 0 then Invalid else Inconclusive)
  {
    VotesAre(Contracts(), state.resolved, entry.trend, reference);
    if n == 3 { StatusOfThree(Votes(Contracts(), state.resolved, entry.trend, reference).value); }
  }

  // ---------------------------------------------------------------- acceptance

  lemma {:induction false} ReportsAre(states: seq<CandidateState>, entries: seq<EntryCandidate>, reference: int)
    requires |states| == |entries|
    requires forall i :: 0 <= i < |states| ==> CandidateReportOf(states[i], entries[i], reference).Ok?
    ensures Reports(states, entries, reference).Ok? && |Reports(states, entries, reference).value| == |states|
    ensures forall i :: 0 <= i < |states| ==>
              CandidateReportOf(states[i], entries[i], reference) == Ok(Reports(states, entries, reference).value[i])
  {
    if states != [] { ReportsAre(states[..|states| - 1], entries[..|states| - 1], reference); }
  }

  lemma {:induction false} PendingTogether(reports: seq<CandidateReport>, pending: bool)
    requires forall i :: 0 <= i < |reports| ==> (reports[i].status == Pending) == pending
    ensures Having(reports, Pending) == if pending then |reports| else 0
  {
    if reports != [] { PendingTogether(reports[..|reports| - 1], pending); }
  }

  lemma HorizonsPass(resolved: map<Horizon, HorizonResult>, reference: int, n: nat)
    requires ResolvedTo(resolved, reference, n)
    ensures HorizonsKnown(resolved) && HorizonsLabelled(resolved)
  {
  }

  lemma CandidatesPass(candidates: seq<CandidateState>, entry: Entry, reference: int, n: nat)
    requires CandidatesAt(candidates, entry, reference, n)
    ensures forall i :: 0 <= i < |candidates| ==>
              HorizonsKnown(candidates[i].resolved) && HorizonsLabelled(candidates[i].resolved)
    ensures StateSymbols(candidates) == EntrySymbols(entry.candidates)
  {
    forall i | 0 <= i < |candidates|
      ensures HorizonsKnown(candidates[i].resolved) && HorizonsLabelled(candidates[i].resolved)
    {
      HorizonsPass(candidates[i].resolved, reference, n);
    }
  }

  lemma SchemaPasses(state: Resolution, entry: Entry, n: nat)
    requires StateAt(state, entry, n) && EntrySchemaError(entry).None?
    ensures ResolvedSchemaError(state).None?
  {
    CandidatesPass(state.candidates, entry, state.referenceCandleAt, n);
    HorizonsErrorMeans(state.candidates);
  }

  lemma IdentityPasses(state: Resolution, entry: Entry, n: nat)
    requires StateAt(state, entry, n)
    ensures IdentityError(state, entry).None?
  {
    CandidatesDifferMeans(state.candidates, entry.candidates);
  }

  /** Every artifact the resolver writes for an entry that the validator accepts passes all of its
      checks, and its candidates are all pending or all decided. */
  lemma {:induction false} ResolverArtifactsPass(state: Resolution, entry: Entry, n: nat, files: map<string, Entry>)
    requires StateAt(state, entry, n) && EntrySchemaError(entry).None?
    requires entry.name in files && files[entry.name] == entry
    ensures Validation(state, files).Ok?
    ensures |Validation(state, files).value.candidates| == |entry.candidates|
    ensures forall i :: 0 <= i < |entry.candidates| ==>
              CandidateReportOf(state.candidates[i], entry.candidates[i], state.referenceCandleAt)
              == Ok(Validation(state, files).value.candidates[i])
    ensures forall i :: 0 <= i < |entry.candidates| ==>
              (Validation(state, files).value.candidates[i].status == Pending) == (n < 3)
    ensures Validation(state, files).value.complete == (n == 3)
    ensures Validation(state, files).value.counts.pending == if n < 3 then |entry.candidates| else 0
  {
    SchemaPasses(state, entry, n);
    IdentityPasses(state, entry, n);
    forall i | 0 <= i < |state.candidates|
      ensures CandidateReportOf(state.candidates[i], entry.candidates[i], state.referenceCandleAt).Ok?
      ensures var report := CandidateReportOf(state.candidates[i], entry.candidates[i], state.referenceCandleAt);
              (report.value.status == Pending) == (n < 3)
    {
      VerdictIsTheMajority(state.candidates[i], entry.candidates[i], state.referenceCandleAt, n);
    }
    ReportsAre(state.candidates, entry.candidates, state.referenceCandleAt);
    PendingTogether(Reports(state.candidates, entry.candidates, state.referenceCandleAt).value, n < 3);
  }

  // ---------------------------------------------------------------- finality

  lemma FullStateStays(before: Resolution, artifact: Option<Resolution>, entry: Entry, m: nat)
    requires StateAt(before, entry, 3) && 3 <= m && At(artifact, entry, m)
    requires artifact.Some? && Grows(before, artifact.value)
    ensures artifact == Some(before)
  {
    var after := artifact.value;
    forall i | 0 <= i < |before.candidates| ensures before.candidates[i] == after.candidates[i] {
      assert ResolvedTo(before.candidates[i].resolved, before.referenceCandleAt, 3);
      assert ResolvedTo(after.candidates[i].resolved, after.referenceCandleAt, 3);
      assert before.candidates[i].resolved == after.candidates[i].resolved;
    }
    assert before.candidates == after.candidates;
    assert before.(candidates := []) == after.(candidates := []);
  }

  lemma DecidedIsFull(state: Resolution, entry: Entry, n: nat, files: map<string, Entry>, i: nat)
    requires StateAt(state, entry, n) && EntrySchemaError(entry).None?
    requires entry.name in files && files[entry.name] == entry
    requires Validation(state, files).Ok? && i < |Validation(state, files).value.candidates|
    requires Validation(state, files).value.candidates[i].status != Pending
    ensures n == 3
  {
    ResolverArtifactsPass(state, entry, n, files);
  }

  lemma FullIsFinal(state: Resolution, entry: Entry, later: seq<Occasion>)
    requires StateAt(state, entry, 3)
    ensures Continued(Some(state), entry, later) == Some(state)
  {
    var m := ContinuedLevel(Some(state), entry, 3, later);
    FullStateStays(state, Continued(Some(state), entry, later), entry, m);
  }

  /** Once any candidate of an artifact has a verdict, no later run, over whatever markets and at
      whatever times, changes the artifact, and so no verdict changes either. */
  lemma {:induction false} VerdictIsFinal(entry: Entry, before: seq<Occasion>, state: Resolution, later: seq<Occasion>,
                       files: map<string, Entry>, i: nat)
    requires Continued(None, entry, before) == Some(state)
    requires EntrySchemaError(entry).None? && entry.name in files && files[entry.name] == entry
    requires Validation(state, files).Ok? && i < |Validation(state, files).value.candidates|
    requires Validation(state, files).value.candidates[i].status != Pending
    ensures Continued(Some(state), entry, later) == Some(state)
  {
    ResolvedSetsArePrefixes(entry, before);
    var n :| StateAt(state, entry, n);
    DecidedIsFull(state, entry, n, files, i);
    FullIsFinal(state, entry, later);
  }
}
