/** The forward-test validator: it checks a resolution artifact against its entry snapshot, and
    turns each candidate's resolved horizons into votes and a verdict. */
module ForwardValidator {
  import opened Wrappers
  import opened ForwardOutcome

  datatype Vote = Support | Oppose | Flat
  datatype Status = Pending | Valid | Invalid | Inconclusive

  datatype Refusal =
    | SnapshotTypeWrong | SchemaVersionWrong | EntryTypeWrong | EntrySchemaWrong | CandidatesMissing
    | HorizonUnknown | HorizonMislabelled | DuplicateSymbols | EntryFileMissing | TrendUnsupported | ReferenceDiffers
    | IdentityDiffers | CountDiffers | SymbolDiffers | PriceDiffers | TargetDiffers

  datatype CandidateReport = CandidateReport(
    symbol: string, referencePrice: real, trend: Trend, present: seq<Horizon>, missing: seq<Horizon>,
    votes: map<Horizon, Vote>, status: Status)

  datatype Counts = Counts(total: nat, pending: nat, valid: nat, invalid: nat, inconclusive: nat)

  datatype Report = Report(complete: bool, counts: Counts, candidates: seq<CandidateReport>)

  // ---------------------------------------------------------------- schemas and identity

  predicate HasDuplicateSymbols(symbols: seq<string>) {
    exists i, j :: 0 <= i < j < |symbols| && symbols[i] == symbols[j]
  }

  function EntrySymbols(candidates: seq<EntryCandidate>): (symbols: seq<string>)
    ensures |symbols| == |candidates| && forall i :: 0 <= i < |symbols| ==> symbols[i] == candidates[i].symbol
  {
    if candidates == [] then []
    else EntrySymbols(candidates[..|candidates| - 1]) + [candidates[|candidates| - 1].symbol]
  }

  function StateSymbols(candidates: seq<CandidateState>): (symbols: seq<string>)
    ensures |symbols| == |candidates| && forall i :: 0 <= i < |symbols| ==> symbols[i] == candidates[i].symbol
  {
    if candidates == [] then []
    else StateSymbols(candidates[..|candidates| - 1]) + [candidates[|candidates| - 1].symbol]
  }

  predicate HorizonsKnown(resolved: map<Horizon, HorizonResult>) {
    forall h :: h in resolved ==> IsKnown(h)
  }

  predicate HorizonsLabelled(resolved: map<Horizon, HorizonResult>) {
    forall h :: h in resolved ==> resolved[h].horizon == h
  }

  /** The first candidate whose horizons are not the known ones, each under its own name. */
  function HorizonsError(candidates: seq<CandidateState>): Option<Refusal> {
    if candidates == [] then None
    else if !HorizonsKnown(candidates[0].resolved) then Some(HorizonUnknown)
    else if !HorizonsLabelled(candidates[0].resolved) then Some(HorizonMislabelled)
    else HorizonsError(candidates[1..])
  }

  function ResolvedSchemaError(state: Resolution): Option<Refusal> {
    if state.snapshotType != RESOLUTION_TYPE then Some(SnapshotTypeWrong)
    else if state.schemaVersion != 1 then Some(SchemaVersionWrong)
    else if state.entrySnapshotType != ENTRY_TYPE then Some(EntryTypeWrong)
    else if state.entrySchemaVersion != 1 then Some(EntrySchemaWrong)
    else if state.candidates == [] then Some(CandidatesMissing)
    else if HorizonsError(state.candidates) != None then HorizonsError(state.candidates)
    else if HasDuplicateSymbols(StateSymbols(state.candidates)) then Some(DuplicateSymbols)
    else None
  }

  function EntrySchemaError(entry: Entry): Option<Refusal> {
    if entry.snapshotType != ENTRY_TYPE then Some(EntryTypeWrong)
    else if entry.schemaVersion != 1 then Some(EntrySchemaWrong)
    else if entry.candidates == [] then Some(CandidatesMissing)
    else if exists i :: 0 <= i < |entry.candidates| && entry.candidates[i].trend == OtherTrend then Some(TrendUnsupported)
    else if HasDuplicateSymbols(EntrySymbols(entry.candidates)) then Some(DuplicateSymbols)
    else if !SharesReference(entry.candidates) then Some(ReferenceDiffers)
    else None
  }

  /** The first candidate that is not the entry's. */
  function CandidatesDiffer(states: seq<CandidateState>, entries: seq<EntryCandidate>): Option<Refusal>
    requires |states| == |entries|
  {
    if states == [] then None
    else if states[0].symbol != entries[0].symbol then Some(SymbolDiffers)
    else if states[0].referencePrice != entries[0].referencePrice then Some(PriceDiffers)
    else CandidatesDiffer(states[1..], entries[1..])
  }

  function IdentityError(state: Resolution, entry: Entry): Option<Refusal>
    requires entry.candidates != []
  {
    if state.entrySnapshotType != entry.snapshotType || state.entrySchemaVersion != entry.schemaVersion
       || state.entryCapturedAt != entry.capturedAt
       || state.referenceCandleAt != entry.candidates[0].referenceCandleAt then Some(IdentityDiffers)
    else if |state.candidates| != |entry.candidates| then Some(CountDiffers)
    else CandidatesDiffer(state.candidates, entry.candidates)
  }

  lemma {:induction false} HorizonsErrorMeans(candidates: seq<CandidateState>)
    ensures HorizonsError(candidates) == None
       <==> forall i :: 0 <= i < |candidates| ==>
              HorizonsKnown(candidates[i].resolved) && HorizonsLabelled(candidates[i].resolved)
  {
    if candidates != [] {
      HorizonsErrorMeans(candidates[1..]);
      assert forall i :: 1 <= i < |candidates| ==> candidates[i] == candidates[1..][i - 1];
    }
  }

  lemma {:induction false} CandidatesDifferMeans(states: seq<CandidateState>, entries: seq<EntryCandidate>)
    requires |states| == |entries|
    ensures CandidatesDiffer(states, entries) == None
       <==> forall i :: 0 <= i < |states| ==>
              states[i].symbol == entries[i].symbol && states[i].referencePrice == entries[i].referencePrice
  {
    if states != [] {
      CandidatesDifferMeans(states[1..], entries[1..]);
      assert forall i :: 1 <= i < |states| ==> states[i] == states[1..][i - 1] && entries[i] == entries[1..][i - 1];
    }
  }

  // ---------------------------------------------------------------- votes

  function VoteOf(trend: Trend, returnPct: real): Result<Vote, Refusal> {
    if returnPct == 0.0 then Ok(Flat)
    else match trend
         case Uptrend => Ok(if returnPct > 0.0 then Support else Oppose)
         case Downtrend => Ok(if returnPct < 0.0 then Support else Oppose)
         case OtherTrend => Err(TrendUnsupported)
  }

  function Present(horizons: seq<Horizon>, resolved: map<Horizon, HorizonResult>): seq<Horizon> {
    if horizons == [] then []
    else Present(horizons[..|horizons| - 1], resolved)
         + if horizons[|horizons| - 1] in resolved then [horizons[|horizons| - 1]] else []
  }

  function Missing(horizons: seq<Horizon>, resolved: map<Horizon, HorizonResult>): seq<Horizon> {
    if horizons == [] then []
    else Missing(horizons[..|horizons| - 1], resolved)
         + if horizons[|horizons| - 1] in resolved then [] else [horizons[|horizons| - 1]]
  }

  /** The votes of the listed horizons that are resolved. */
  function Votes(horizons: seq<Horizon>, resolved: map<Horizon, HorizonResult>, trend: Trend, reference: int)
    : Result<map<Horizon, Vote>, Refusal>
  {
    if horizons == [] then Ok(map[])
    else
      var last := horizons[|horizons| - 1];
      match Votes(horizons[..|horizons| - 1], resolved, trend, reference)
      case Err(refusal) => Err(refusal)
      case Ok(votes) =>
        if last !in resolved then Ok(votes)
        else if resolved[last].targetAt != TargetAt(reference, last) then Err(TargetDiffers)
        else match VoteOf(trend, resolved[last].returnPct)
             case Err(refusal) => Err(refusal)
             case Ok(vote) => Ok(votes[last := vote])
  }

  function CountVotes(horizons: seq<Horizon>, votes: map<Horizon, Vote>, vote: Vote): nat {
    if horizons == [] then 0
    else CountVotes(horizons[..|horizons| - 1], votes, vote)
         + if horizons[|horizons| - 1] in votes && votes[horizons[|horizons| - 1]] == vote then 1 else 0
  }

  function StatusOf(votes: map<Horizon, Vote>): Status {
    if H12 !in votes then Pending
    else
      var support, oppose := CountVotes(Contracts(), votes, Support), CountVotes(Contracts(), votes, Oppose);
      if support > oppose then Valid else if oppose > support then Invalid else Inconclusive
  }

  // ---------------------------------------------------------------- reports

  function CandidateReportOf(state: CandidateState, entry: EntryCandidate,
                             reference: int): Result<CandidateReport, Refusal> {
    match Votes(Contracts(), state.resolved, entry.trend, reference)
    case Err(refusal) => Err(refusal)
    case Ok(votes) =>
      Ok(CandidateReport(state.symbol, state.referencePrice, entry.trend, Present(Contracts(), state.resolved),
                         Missing(Contracts(), state.resolved), votes, StatusOf(votes)))
  }

  method BuildCandidateReport(state: CandidateState, entry: EntryCandidate, reference: int)
    returns (report: Result<CandidateReport, Refusal>)
    ensures report == CandidateReportOf(state, entry, reference)
  {
    var horizons := Contracts();
    var present, missing, votes := [], [], map[];
    for i := 0 to |horizons|
      invariant present == Present(horizons[..i], state.resolved) && missing == Missing(horizons[..i], state.resolved)
      invariant Votes(horizons[..i], state.resolved, entry.trend, reference) == Ok(votes)
    {
      var h := horizons[i];
      assert horizons[..i + 1][..i] == horizons[..i];
      if h in state.resolved {
        present := present + [h];
        var vote := VoteOf(entry.trend, state.resolved[h].returnPct);
        if state.resolved[h].targetAt != TargetAt(reference, h) || vote.Err? {
          VotesFail(horizons, i + 1, state.resolved, entry.trend, reference);
          return Err(if state.resolved[h].targetAt != TargetAt(reference, h) then TargetDiffers else vote.error);
        }
        votes := votes[h := vote.value];
      } else {
        missing := missing + [h];
      }
    }
    assert horizons[..|horizons|] == horizons;
    return Ok(CandidateReport(state.symbol, state.referencePrice, entry.trend, present, missing, votes, StatusOf(votes)));
  }

  lemma {:induction false} VotesFail(horizons: seq<Horizon>, n: nat, resolved: map<Horizon, HorizonResult>,
                                     trend: Trend, reference: int)
    requires n <= |horizons| && Votes(horizons[..n], resolved, trend, reference).Err?
    ensures Votes(horizons, resolved, trend, reference) == Votes(horizons[..n], resolved, trend, reference)
  {
    if n < |horizons| {
      var shorter := horizons[..|horizons| - 1];
      assert shorter[..n] == horizons[..n];
      VotesFail(shorter, n, resolved, trend, reference);
    } else {
      assert horizons[..n] == horizons;
    }
  }

  function Reports(states: seq<CandidateState>, entries: seq<EntryCandidate>,
                   reference: int): Result<seq<CandidateReport>, Refusal>
    requires |states| == |entries|
  {
    if states == [] then Ok([])
    else match Reports(states[..|states| - 1], entries[..|states| - 1], reference)
         case Err(refusal) => Err(refusal)
         case Ok(reports) =>
           match CandidateReportOf(states[|states| - 1], entries[|states| - 1], reference)
           case Err(refusal) => Err(refusal)
           case Ok(report) => Ok(reports + [report])
  }

  /** How many candidates ended with a verdict. */
  function Having(reports: seq<CandidateReport>, status: Status): nat {
    if reports == [] then 0
    else Having(reports[..|reports| - 1], status) + if reports[|reports| - 1].status == status then 1 else 0
  }

  function CountsOf(reports: seq<CandidateReport>): Counts {
    Counts(|reports|, Having(reports, Pending), Having(reports, Valid),
           Having(reports, Invalid), Having(reports, Inconclusive))
  }

  /** What the validator says of an artifact, given the entry files beside it. */
  function Validation(state: Resolution, files: map<string, Entry>): Result<Report, Refusal> {
    match ResolvedSchemaError(state)
    case Some(refusal) => Err(refusal)
    case None =>
      if state.entryArtifact !in files then Err(EntryFileMissing)
      else
        var entry := files[state.entryArtifact];
        match EntrySchemaError(entry)
        case Some(refusal) => Err(refusal)
        case None =>
          match IdentityError(state, entry)
          case Some(refusal) => Err(refusal)
          case None =>
            match Reports(state.candidates, entry.candidates, state.referenceCandleAt)
            case Err(refusal) => Err(refusal)
            case Ok(reports) => Ok(Report(Having(reports, Pending) == 0, CountsOf(reports), reports))
  }

  lemma {:induction false} ReportsFail(states: seq<CandidateState>, entries: seq<EntryCandidate>, n: nat,
                                       reference: int)
    requires |states| == |entries| && n <= |states| && Reports(states[..n], entries[..n], reference).Err?
    ensures Reports(states, entries, reference) == Reports(states[..n], entries[..n], reference)
  {
    if n < |states| {
      var fewerStates, fewerEntries := states[..|states| - 1], entries[..|states| - 1];
      assert fewerStates[..n] == states[..n] && fewerEntries[..n] == entries[..n];
      ReportsFail(fewerStates, fewerEntries, n, reference);
    } else {
      assert states[..n] == states && entries[..n] == entries;
    }
  }

  /** The loop over the candidates, which collects the reports and tallies their verdicts. */
  method ReportCandidates(states: seq<CandidateState>, entries: seq<EntryCandidate>, reference: int)
    returns (reports: Result<seq<CandidateReport>, Refusal>, counts: Counts)
    requires |states| == |entries|
    ensures reports == Reports(states, entries, reference)
    ensures reports.Ok? ==> counts == CountsOf(reports.value)
    ensures reports.Ok? ==> counts.total == |states| == counts.pending + counts.valid + counts.invalid + counts.inconclusive
  {
    var list: seq<CandidateReport> := [];
    var pending, valid, invalid, inconclusive := 0, 0, 0, 0;
    for i := 0 to |states|
      invariant Reports(states[..i], entries[..i], reference) == Ok(list) && |list| == i
      invariant pending == Having(list, Pending) && valid == Having(list, Valid)
      invariant invalid == Having(list, Invalid) && inconclusive == Having(list, Inconclusive)
      invariant pending + valid + invalid + inconclusive == i
    {
      assert states[..i + 1][..i] == states[..i] && entries[..i + 1][..i] == entries[..i];
      var report := BuildCandidateReport(states[i], entries[i], reference);
      if report.Err? {
        ReportsFail(states, entries, i + 1, reference);
        return Err(report.error), Counts(0, 0, 0, 0, 0);
      }
      match report.value.status {
        case Pending => pending := pending + 1;
        case Valid => valid := valid + 1;
        case Invalid => invalid := invalid + 1;
        case Inconclusive => inconclusive := inconclusive + 1;
      }
      assert (list + [report.value])[..i] == list;
      list := list + [report.value];
    }
    assert states[..|states|] == states && entries[..|states|] == entries;
    return Ok(list), Counts(|states|, pending, valid, invalid, inconclusive);
  }

  method ValidateResolvedArtifact(state: Resolution, files: map<string, Entry>)
    returns (report: Result<Report, Refusal>)
    ensures report == Validation(state, files)
    ensures report.Ok? ==>
              var c := report.value.counts;
              c.total == |state.candidates| == c.pending + c.valid + c.invalid + c.inconclusive
  {
    var refused := ResolvedSchemaError(state);
    if refused.Some? { return Err(refused.value); }
    if state.entryArtifact !in files { return Err(EntryFileMissing); }
    var entry := files[state.entryArtifact];
    refused := EntrySchemaError(entry);
    if refused.Some? { return Err(refused.value); }
    refused := IdentityError(state, entry);
    if refused.Some? { return Err(refused.value); }
    var reports, counts := ReportCandidates(state.candidates, entry.candidates, state.referenceCandleAt);
    if reports.Err? { return Err(reports.error); }
    return Ok(Report(counts.pending == 0, counts, reports.value));
  }
}
