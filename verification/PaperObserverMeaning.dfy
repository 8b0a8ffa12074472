/** What the observer answers, in prices and instants: when an observation is accepted, which candle
    reaches entry, target or stop first, and what each outcome says of that candle's high and low. */
module PaperObserverMeaning {
  import opened Wrappers
  import opened PaperObserver
  import opened PaperObserverProperties

  // ---------------------------------------------------------------- acceptance

  /** Stop, entry zone and targets in the order of the side. */
  predicate SoundLevels(p: Publication) {
    || (p.side == Long && p.stopLoss < p.entryMin <= p.entryMax < p.tp1 <= p.tp2)
    || (p.side == Short && p.stopLoss > p.entryMax >= p.entryMin > p.tp1 >= p.tp2)
  }

  predicate SoundCandle(c: Candle, symbol: string, until: int) {
    && c.symbol == symbol && c.isClosed && c.openTime.at < c.closeTime.at <= until
    && c.low <= c.open <= c.high && c.low <= c.close <= c.high
  }

  /** An observation is accepted if and only if its levels are in order, its window starts at the
      publication or after, its cancellation is no earlier, and its candles are sound, with no two
      written alike. */
  lemma {:induction false} AcceptedMeans(p: Publication, candles: seq<Candle>, from: int, until: int,
                                         cancellation: Option<Cancellation>)
    ensures Observed(p, candles, from, until, cancellation).Ok?
       <==> && SoundLevels(p) && p.publishedAt <= from <= until
            && (cancellation == None || cancellation.value.cancelledAt >= p.publishedAt)
            && (forall c :: c in candles ==> SoundCandle(c, p.symbol, until))
            && forall i, j :: 0 <= i < j < |candles| ==>
                 candles[i].openTime != candles[j].openTime || candles[i].closeTime != candles[j].closeTime
  {
    CollectedExactly(candles, p.symbol, p.publishedAt, until);
    LevelsMean(p);
    forall c ensures SoundCandle(c, p.symbol, until) <==> CandleError(c, p.symbol).None? && c.closeTime.at <= until {
      CandleMeans(c, p.symbol, until);
    }
    if forall c :: c in candles ==> SoundCandle(c, p.symbol, until) {
      forall i | 0 <= i < |candles| ensures candles[i].symbol == p.symbol { assert candles[i] in candles; }
    }
  }

  lemma LevelsMean(p: Publication)
    ensures SoundLevels(p) <==> PublicationError(p).None?
  {
  }

  lemma CandleMeans(c: Candle, symbol: string, until: int)
    ensures SoundCandle(c, symbol, until) <==> CandleError(c, symbol).None? && c.closeTime.at <= until
  {
  }

  // ---------------------------------------------------------------- what a candle reaches

  /** The candle stays clear of the target, of the stop, and of the entry zone. */
  predicate StaysClear(c: Candle, p: Publication) {
    if p.side == Long then c.high < p.tp1 && c.low > p.stopLoss && (c.high < p.entryMin || c.low > p.entryMax)
    else c.low > p.tp1 && c.high < p.stopLoss && (c.high < p.entryMin || c.low > p.entryMax)
  }

  /** The candle reaches the entry zone and neither target nor stop. */
  predicate ReachesEntryOnly(c: Candle, p: Publication) {
    if p.side == Long then p.entryMin <= c.high < p.tp1 && p.stopLoss < c.low <= p.entryMax
    else p.tp1 < c.low <= p.entryMax && p.entryMin <= c.high < p.stopLoss
  }

  /** The candle reaches the target from beyond the entry zone. */
  predicate ReachesTargetOnly(c: Candle, p: Publication) {
    if p.side == Long then c.high >= p.tp1 && c.low > p.entryMax else c.low <= p.tp1 && c.high < p.entryMin
  }

  /** The candle reaches the stop without having touched the entry zone. */
  predicate ReachesStopOnly(c: Candle, p: Publication) {
    if p.side == Long then c.low <= p.stopLoss && c.high < p.entryMin else c.high >= p.stopLoss && c.low > p.entryMax
  }

  /** The candle spans the entry zone and the target, or the stop and the entry zone. */
  predicate ReachesSeveral(c: Candle, p: Publication) {
    if p.side == Long then
      (c.high >= p.tp1 && c.low <= p.entryMax) || (c.high >= p.entryMin && c.low <= p.stopLoss)
    else
      (c.low <= p.tp1 && c.high >= p.entryMin) || (c.low <= p.entryMax && c.high >= p.stopLoss)
  }

  /** What the observer answers once a candle reaches something. */
  function Reached(c: Candle, p: Publication): Outcome {
    if ReachesSeveral(c, p) then Outcome(Ambiguous, FillAmbiguous, None, None, Some(MultipleFirstTouches), None)
    else if ReachesEntryOnly(c, p) then
      Outcome(EntryZoneTouched, FillTouched, Some(c.closeTime), Some(c), Some(EntryTouched), None)
    else if ReachesTargetOnly(c, p) then
      Outcome(TargetReachedBeforeEntry, FillTargetFirst, None, None, Some(TargetFirst), None)
    else Outcome(InvalidatedBeforeEntry, FillInvalidatedFirst, None, None, Some(InvalidatedFirst), None)
  }

  /** A candle stays clear, or reaches in exactly one of the four ways. */
  lemma OneWay(c: Candle, p: Publication)
    requires SoundLevels(p) && c.low <= c.high
    ensures StaysClear(c, p)
       <==> !ReachesEntryOnly(c, p) && !ReachesTargetOnly(c, p) && !ReachesStopOnly(c, p) && !ReachesSeveral(c, p)
    ensures !(ReachesEntryOnly(c, p) && (ReachesTargetOnly(c, p) || ReachesStopOnly(c, p) || ReachesSeveral(c, p)))
    ensures !(ReachesTargetOnly(c, p) && (ReachesStopOnly(c, p) || ReachesSeveral(c, p)))
    ensures !(ReachesStopOnly(c, p) && ReachesSeveral(c, p))
  {
  }

  lemma DecisionMeans(c: Candle, p: Publication, cancellation: Option<Cancellation>)
    requires SoundLevels(p) && c.low <= c.high
    requires cancellation == None || c.closeTime.at <= cancellation.value.cancelledAt
    ensures StaysClear(c, p) ==> Decision(c, p, cancellation) == None
    ensures !StaysClear(c, p) ==> Decision(c, p, cancellation) == Some(Reached(c, p))
  {
  }

  // ---------------------------------------------------------------- the first candle that reaches anything

  /** The candle closes from the publication on, and no later than a cancellation. */
  predicate Matters(candles: seq<Candle>, k: int, p: Publication, cancellation: Option<Cancellation>) {
    && 0 <= k < |candles| && p.publishedAt <= candles[k].closeTime.at
    && (cancellation == None || candles[k].closeTime.at <= cancellation.value.cancelledAt)
  }

  predicate SameTimes(a: Candle, b: Candle) {
    a.closeTime.at == b.closeTime.at && a.openTime.at == b.openTime.at
  }

  /** By the close, then by the open, then as they were given. */
  predicate ComesFirst(candles: seq<Candle>, l: int, k: int) {
    && 0 <= l < |candles| && 0 <= k < |candles|
    && (|| candles[l].closeTime.at < candles[k].closeTime.at
        || (candles[l].closeTime.at == candles[k].closeTime.at && candles[l].openTime.at < candles[k].openTime.at)
        || (SameTimes(candles[l], candles[k]) && l < k))
  }

  /** The candle reaches something, and every one that comes first stays clear. */
  ghost predicate ReachesFirst(candles: seq<Candle>, k: int, p: Publication, cancellation: Option<Cancellation>) {
    && Matters(candles, k, p, cancellation) && !StaysClear(candles[k], p)
    && forall l :: Matters(candles, l, p, cancellation) && ComesFirst(candles, l, k) ==> StaysClear(candles[l], p)
  }

  ghost predicate AllStayClear(candles: seq<Candle>, p: Publication, cancellation: Option<Cancellation>) {
    forall k :: Matters(candles, k, p, cancellation) ==> StaysClear(candles[k], p)
  }

  /** What the observer answers when no candle that matters reaches anything. */
  function Ending(p: Publication, until: int, cancellation: Option<Cancellation>): Outcome {
    if cancellation != None && cancellation.value.cancelledAt <= until then
      Outcome(Cancelled, NotObserved, None, None, Some(CancelledFor(cancellation.value.reasonCode)), cancellation)
    else if until > p.validUntil then Outcome(ExpiredUntouched, FillExpired, None, None, Some(ValidityExpired), None)
    else Outcome(Observing, NotObserved, None, None, None, None)
  }

  lemma OneReachesFirst(candles: seq<Candle>, p: Publication, cancellation: Option<Cancellation>)
    ensures forall k, l :: ReachesFirst(candles, k, p, cancellation) && ReachesFirst(candles, l, p, cancellation) ==> k == l
  {
    forall k, l | ReachesFirst(candles, k, p, cancellation) && ReachesFirst(candles, l, p, cancellation) ensures k == l {
      assert k != l ==> ComesFirst(candles, k, l) || ComesFirst(candles, l, k);
    }
  }

  lemma DecisiveReachesFirst(p: Publication, candles: seq<Candle>, cancellation: Option<Cancellation>, k: int)
    requires SoundLevels(p) && forall c :: c in candles ==> c.low <= c.high
    requires Decisive(candles, k, p, cancellation) && Matters(candles, k, p, cancellation)
    ensures ReachesFirst(candles, k, p, cancellation)
    ensures Decision(candles[k], p, cancellation) == Some(Reached(candles[k], p))
  {
    DecisionMeans(candles[k], p, cancellation);
    forall l | Matters(candles, l, p, cancellation) && ComesFirst(candles, l, k) ensures StaysClear(candles[l], p) {
      DecisionMeans(candles[l], p, cancellation);
      assert !StaysClear(candles[l], p) ==> DecidesAt(candles, l, p, cancellation) && !Earlier(candles, k, l);
    }
  }

  lemma DecisiveByCancellation(p: Publication, candles: seq<Candle>, until: int, cancellation: Option<Cancellation>,
                               k: int)
    requires SoundLevels(p) && forall c :: c in candles ==> c.low <= c.high && c.closeTime.at <= until
    requires Decisive(candles, k, p, cancellation) && !Matters(candles, k, p, cancellation)
    ensures AllStayClear(candles, p, cancellation)
    ensures Decision(candles[k], p, cancellation) == Some(Ending(p, until, cancellation))
  {
    forall l | Matters(candles, l, p, cancellation) ensures StaysClear(candles[l], p) {
      DecisionMeans(candles[l], p, cancellation);
      assert !StaysClear(candles[l], p) ==> DecidesAt(candles, l, p, cancellation) && !Earlier(candles, k, l);
    }
  }

  lemma NothingDecides(p: Publication, candles: seq<Candle>, until: int, cancellation: Option<Cancellation>)
    requires SoundLevels(p) && forall c :: c in candles ==> c.low <= c.high
    requires forall k :: !DecidesAt(candles, k, p, cancellation)
    ensures AllStayClear(candles, p, cancellation)
  {
    forall k | Matters(candles, k, p, cancellation) ensures StaysClear(candles[k], p) {
      DecisionMeans(candles[k], p, cancellation);
      assert !DecidesAt(candles, k, p, cancellation);
    }
  }

  /** The outcome of an accepted observation: if every candle that matters stays clear, the
      cancellation, the expiry or nothing yet, by the instants alone; otherwise what the first
      candle reaches that reaches anything, and there is exactly one. */
  lemma {:induction false} OutcomeMeans(p: Publication, candles: seq<Candle>, from: int, until: int,
                                        cancellation: Option<Cancellation>)
    requires Observed(p, candles, from, until, cancellation).Ok?
    ensures var outcome := Observed(p, candles, from, until, cancellation).value.outcome;
            if AllStayClear(candles, p, cancellation) then outcome == Ending(p, until, cancellation)
            else exists k :: ReachesFirst(candles, k, p, cancellation) && outcome == Reached(candles[k], p)
    ensures forall k, l :: ReachesFirst(candles, k, p, cancellation) && ReachesFirst(candles, l, p, cancellation) ==> k == l
  {
    AcceptedMeans(p, candles, from, until, cancellation);
    OneReachesFirst(candles, p, cancellation);
    var k := DecisiveCandle(p, candles, from, until, cancellation);
    if k == -1 { NothingDecides(p, candles, until, cancellation); }
    else if Matters(candles, k, p, cancellation) { DecisiveReachesFirst(p, candles, cancellation, k); }
    else { DecisiveByCancellation(p, candles, until, cancellation, k); }
  }

  lemma DecisiveCandle(p: Publication, candles: seq<Candle>, from: int, until: int, cancellation: Option<Cancellation>)
    returns (k: int)
    requires Observed(p, candles, from, until, cancellation).Ok?
    ensures k == -1 ==> forall l :: !DecidesAt(candles, l, p, cancellation)
    ensures k == -1 ==> Observed(p, candles, from, until, cancellation).value.outcome == Tail(p, cancellation, until)
    ensures k != -1 ==> Decisive(candles, k, p, cancellation)
    ensures k != -1 ==>
              Decision(candles[k], p, cancellation) == Some(Observed(p, candles, from, until, cancellation).value.outcome)
  {
    ObservationMeans(p, candles, from, until, cancellation);
    k := -1;
    if !forall l :: !DecidesAt(candles, l, p, cancellation) {
      k :| && Decisive(candles, k, p, cancellation)
           && Decision(candles[k], p, cancellation) == Some(Observed(p, candles, from, until, cancellation).value.outcome);
    }
  }

  /** So each outcome says what the first candle that reaches anything reaches. */
  lemma {:induction false} StatesMean(p: Publication, candles: seq<Candle>, from: int, until: int,
                                      cancellation: Option<Cancellation>, state: State)
    requires Observed(p, candles, from, until, cancellation).Ok?
    requires state == Observed(p, candles, from, until, cancellation).value.outcome.state
    ensures state == EntryZoneTouched
       <==> exists k :: ReachesFirst(candles, k, p, cancellation) && ReachesEntryOnly(candles[k], p)
    ensures state == TargetReachedBeforeEntry
       <==> exists k :: ReachesFirst(candles, k, p, cancellation) && ReachesTargetOnly(candles[k], p)
    ensures state == InvalidatedBeforeEntry
       <==> exists k :: ReachesFirst(candles, k, p, cancellation) && ReachesStopOnly(candles[k], p)
    ensures state == Ambiguous <==> exists k :: ReachesFirst(candles, k, p, cancellation) && ReachesSeveral(candles[k], p)
    ensures state in {Observing, ExpiredUntouched, Cancelled} <==> AllStayClear(candles, p, cancellation)
    ensures state == Cancelled
       <==> && AllStayClear(candles, p, cancellation)
            && cancellation != None && cancellation.value.cancelledAt <= until
    ensures state == ExpiredUntouched
       <==> && AllStayClear(candles, p, cancellation) && until > p.validUntil
            && (cancellation == None || cancellation.value.cancelledAt > until)
  {
    AcceptedMeans(p, candles, from, until, cancellation);
    OutcomeMeans(p, candles, from, until, cancellation);
    forall k | Matters(candles, k, p, cancellation) ensures candles[k].low <= candles[k].high {
      assert candles[k] in candles;
    }
    forall k | ReachesFirst(candles, k, p, cancellation)
      ensures var c := candles[k];
              ReachesEntryOnly(c, p) || ReachesTargetOnly(c, p) || ReachesStopOnly(c, p) || ReachesSeveral(c, p)
      ensures !AllStayClear(candles, p, cancellation)
    {
      OneWay(candles[k], p);
    }
  }

  /** For a long publication that nobody cancels: it is open or expired if and only if every candle
      that closes from the publication on has its high under the first target, its low over the
      stop, and lies wholly under or wholly over the entry zone. */
  lemma {:induction false} LongIsOpenExactlyWhen(p: Publication, candles: seq<Candle>, from: int, until: int)
    requires Observed(p, candles, from, until, None).Ok? && p.side == Long
    ensures var state := Observed(p, candles, from, until, None).value.outcome.state;
            state == Observing || state == ExpiredUntouched
            <==> forall k :: 0 <= k < |candles| && candles[k].closeTime.at >= p.publishedAt ==>
                   && candles[k].high < p.tp1 && candles[k].low > p.stopLoss
                   && (candles[k].high < p.entryMin || candles[k].low > p.entryMax)
  {
    StatesMean(p, candles, from, until, None, Observed(p, candles, from, until, None).value.outcome.state);
    assert forall k :: Matters(candles, k, p, None) <==> 0 <= k < |candles| && candles[k].closeTime.at >= p.publishedAt;
  }

  /** And for a short one the mirror of that. */
  lemma {:induction false} ShortIsOpenExactlyWhen(p: Publication, candles: seq<Candle>, from: int, until: int)
    requires Observed(p, candles, from, until, None).Ok? && p.side == Short
    ensures var state := Observed(p, candles, from, until, None).value.outcome.state;
            state == Observing || state == ExpiredUntouched
            <==> forall k :: 0 <= k < |candles| && candles[k].closeTime.at >= p.publishedAt ==>
                   && candles[k].low > p.tp1 && candles[k].high < p.stopLoss
                   && (candles[k].high < p.entryMin || candles[k].low > p.entryMax)
  {
    StatesMean(p, candles, from, until, None, Observed(p, candles, from, until, None).value.outcome.state);
    assert forall k :: Matters(candles, k, p, None) <==> 0 <= k < |candles| && candles[k].closeTime.at >= p.publishedAt;
  }

  // ---------------------------------------------------------------- the evidence

  /** The evidence lists the candles that close from the publication on, each once, by close, then
      open, then as they were given. */
  lemma {:induction false} EvidenceMeans(p: Publication, candles: seq<Candle>, from: int, until: int,
                                         cancellation: Option<Cancellation>)
    requires Observed(p, candles, from, until, cancellation).Ok?
    ensures var evidence := Observed(p, candles, from, until, cancellation).value.evidence;
            && (forall c :: c in evidence <==> c in candles && c.closeTime.at >= p.publishedAt)
            && (forall i, j :: 0 <= i < j < |evidence| ==>
                  && evidence[i] != evidence[j] && evidence[i].closeTime.at <= evidence[j].closeTime.at
                  && (evidence[i].closeTime.at == evidence[j].closeTime.at ==>
                        evidence[i].openTime.at <= evidence[j].openTime.at))
            && (forall l: nat, k: nat :: l < k && k < |candles| && SameTimes(candles[l], candles[k])
                                         && candles[l].closeTime.at >= p.publishedAt ==>
                  Precedes(evidence, candles[l], candles[k]))
  {
    EvidenceIsOrdered(p, candles, from, until, cancellation);
    var evidence := Observed(p, candles, from, until, cancellation).value.evidence;
    forall i, j | 0 <= i < j < |evidence| ensures evidence[i] != evidence[j] && !Before(evidence[j], evidence[i]) { }
    forall l: nat, k: nat | l < k && k < |candles| && SameTimes(candles[l], candles[k])
                            && candles[l].closeTime.at >= p.publishedAt
      ensures Precedes(evidence, candles[l], candles[k])
    {
      TiesKeepOrder(candles, p.symbol, p.publishedAt, until, l, k);
    }
  }

  // ---------------------------------------------------------------- refusals

  /** Why an observation is refused before its candles are looked at: the first of these that applies. */
  function SetupFault(p: Publication, from: int, until: int, cancellation: Option<Cancellation>): Option<Error> {
    if p.side == OtherSide then Some(SideInvalid)
    else if p.entryMin > p.entryMax then Some(EntryZoneInverted)
    else if (p.side == Long && p.stopLoss >= p.entryMin) || (p.side == Short && p.stopLoss <= p.entryMax) then
      Some(StopInsideEntry)
    else if (p.side == Long && (p.tp1 <= p.entryMax || p.tp2 < p.tp1))
         || (p.side == Short && (p.tp1 >= p.entryMin || p.tp2 > p.tp1)) then Some(TargetsInsideEntry)
    else if from < p.publishedAt then Some(ObservedBeforePublished)
    else if until < from then Some(WindowInverted)
    else if cancellation != None && cancellation.value.cancelledAt < p.publishedAt then Some(CancelledBeforePublished)
    else None
  }

  /** What is wrong with a candle, among those given before it. */
  function CandleFault(candles: seq<Candle>, i: nat, symbol: string, until: int): Option<Error>
    requires i < |candles|
  {
    var c := candles[i];
    if c.symbol != symbol then Some(SymbolMismatch)
    else if c.closeTime.at <= c.openTime.at then Some(CandleTimesInverted)
    else if !c.isClosed then Some(CandleOpen)
    else if c.high < c.open || c.high < c.close || c.high < c.low then Some(HighInconsistent)
    else if c.low > c.open || c.low > c.close then Some(LowInconsistent)
    else if exists j :: 0 <= j < i && candles[j].symbol == symbol && candles[j].openTime == c.openTime
                     && candles[j].closeTime == c.closeTime then Some(DuplicateCandle)
    else if c.closeTime.at > until then Some(CandleAfterWindow)
    else None
  }

  ghost predicate FirstFault(candles: seq<Candle>, symbol: string, until: int, error: Error) {
    exists i: nat :: && i < |candles| && CandleFault(candles, i, symbol, until) == Some(error)
                     && forall j: nat :: j < i ==> CandleFault(candles, j, symbol, until) == None
  }

  lemma AdmissionMeans(candles: seq<Candle>, symbol: string, until: int)
    requires candles != []
    ensures var n := |candles| - 1;
            AdmissionError(candles[n], candles[..n], symbol, until) == CandleFault(candles, n, symbol, until)
  {
    IdentityIsNew(candles[..|candles| - 1], candles[|candles| - 1]);
  }

  lemma FaultOfFewer(candles: seq<Candle>, n: nat, i: nat, symbol: string, until: int)
    requires i < n <= |candles|
    ensures CandleFault(candles[..n], i, symbol, until) == CandleFault(candles, i, symbol, until)
  {
  }

  /** The candles are refused for the first fault of the first candle that has one. */
  lemma {:induction false} CollectedRefusal(candles: seq<Candle>, symbol: string, publishedAt: int, until: int)
    ensures match Collected(candles, symbol, publishedAt, until)
            case Err(error) => FirstFault(candles, symbol, until, error)
            case Ok(_) => forall i: nat :: i < |candles| ==> CandleFault(candles, i, symbol, until) == None
  {
    if candles != [] {
      var n := |candles| - 1;
      CollectedRefusal(candles[..n], symbol, publishedAt, until);
      AdmissionMeans(candles, symbol, until);
      forall i: nat | i < n ensures CandleFault(candles[..n], i, symbol, until) == CandleFault(candles, i, symbol, until) {
        FaultOfFewer(candles, n, i, symbol, until);
      }
    }
  }

  lemma SetupMeans(p: Publication, from: int, until: int, cancellation: Option<Cancellation>)
    ensures SetupError(p, from, until, cancellation) == SetupFault(p, from, until, cancellation)
  {
  }

  /** Every refusal is for the first fault there is, and there is one exactly when there is a fault. */
  lemma {:induction false} RefusalsMean(p: Publication, candles: seq<Candle>, from: int, until: int,
                                        cancellation: Option<Cancellation>)
    ensures match Observed(p, candles, from, until, cancellation)
            case Ok(_) =>
              && SetupFault(p, from, until, cancellation) == None
              && forall i: nat :: i < |candles| ==> CandleFault(candles, i, p.symbol, until) == None
            case Err(error) =>
              if SetupFault(p, from, until, cancellation) != None
              then error == SetupFault(p, from, until, cancellation).value
              else FirstFault(candles, p.symbol, until, error)
  {
    SetupMeans(p, from, until, cancellation);
    CollectedRefusal(candles, p.symbol, p.publishedAt, until);
  }
}
