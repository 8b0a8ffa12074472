/** The paper-signal observer: which of entry, target, invalidation or cancellation comes first in
    the closed candles of an observation window.  Prices are reals, and instants are integers; a
    candle's times also keep their spelling, because the candle's identity is made of it. */
module PaperObserver {
  import opened Wrappers

  datatype Side = Long | Short | OtherSide

  /** A timestamp as it is written: the instant it names, and which of that instant's spellings it
      is, such as one with a fraction of zero and one without. */
  datatype Stamp = Stamp(at: int, spelling: nat)

  datatype Candle = Candle(symbol: string, openTime: Stamp, closeTime: Stamp, open: real, high: real, low: real, close: real,
                           isClosed: bool)

  datatype Publication = Publication(symbol: string, side: Side, publishedAt: int, validUntil: int,
                                     entryMin: real, entryMax: real, stopLoss: real, tp1: real, tp2: real)

  datatype Cancellation = Cancellation(eventId: string, reasonCode: string, cancelledAt: int)

  datatype State =
    | Observing | EntryZoneTouched | TargetReachedBeforeEntry | InvalidatedBeforeEntry
    | ExpiredUntouched | Cancelled | Ambiguous

  datatype Fill = NotObserved | FillTouched | FillTargetFirst | FillInvalidatedFirst | FillExpired | FillAmbiguous

  datatype Reason =
    | CancelledFor(code: string) | MultipleFirstTouches | EntryTouched | TargetFirst | InvalidatedFirst | ValidityExpired

  datatype Outcome = Outcome(state: State, fill: Fill, touchedAt: Option<Stamp>, touchCandle: Option<Candle>,
                             reason: Option<Reason>, cancellation: Option<Cancellation>)

  /** The outcome, and the candles whose hashes are its evidence. */
  datatype Observation = Observation(outcome: Outcome, evidence: seq<Candle>)

  datatype Error =
    | SideInvalid | EntryZoneInverted | StopInsideEntry | TargetsInsideEntry
    | ObservedBeforePublished | WindowInverted | CancelledBeforePublished
    | SymbolMismatch | CandleTimesInverted | CandleOpen | HighInconsistent | LowInconsistent
    | DuplicateCandle | CandleAfterWindow

  // ---------------------------------------------------------------- validation

  function PublicationError(p: Publication): Option<Error> {
    if p.side == OtherSide then Some(SideInvalid)
    else if p.entryMin > p.entryMax then Some(EntryZoneInverted)
    else if p.side == Long then
      if !(p.stopLoss < p.entryMin) then Some(StopInsideEntry)
      else if !(p.entryMax < p.tp1 <= p.tp2) then Some(TargetsInsideEntry)
      else None
    else if !(p.stopLoss > p.entryMax) then Some(StopInsideEntry)
    else if !(p.entryMin > p.tp1 >= p.tp2) then Some(TargetsInsideEntry)
    else None
  }

  function WindowError(publishedAt: int, from: int, until: int): Option<Error> {
    if from < publishedAt then Some(ObservedBeforePublished)
    else if until < from then Some(WindowInverted)
    else None
  }

  function CancellationError(cancellation: Option<Cancellation>, publishedAt: int): Option<Error> {
    if cancellation.Some? && cancellation.value.cancelledAt < publishedAt then Some(CancelledBeforePublished) else None
  }

  function Max(a: real, b: real): real { if a >= b then a else b }
  function Min(a: real, b: real): real { if a <= b then a else b }

  function CandleError(c: Candle, symbol: string): Option<Error> {
    if c.symbol != symbol then Some(SymbolMismatch)
    else if c.closeTime.at <= c.openTime.at then Some(CandleTimesInverted)
    else if !c.isClosed then Some(CandleOpen)
    else if c.high < Max(Max(c.open, c.close), c.low) then Some(HighInconsistent)
    else if c.low > Min(Min(c.open, c.close), c.high) then Some(LowInconsistent)
    else None
  }

  // ---------------------------------------------------------------- ordering the candles

  type Identity = (string, Stamp, Stamp)

  function IdentityOf(c: Candle): Identity { (c.symbol, c.openTime, c.closeTime) }

  /** The sort key is the close, then the open. */
  predicate Before(a: Candle, b: Candle) {
    a.closeTime.at < b.closeTime.at || (a.closeTime.at == b.closeTime.at && a.openTime.at < b.openTime.at)
  }

  function Insert(c: Candle, ordered: seq<Candle>): seq<Candle> {
    if ordered == [] || Before(c, ordered[0]) then [c] + ordered else [ordered[0]] + Insert(c, ordered[1..])
  }

  /** A stable sort by the key. */
  function Ordered(candles: seq<Candle>): seq<Candle> {
    if candles == [] then [] else Insert(candles[|candles| - 1], Ordered(candles[..|candles| - 1]))
  }

  function Identities(candles: seq<Candle>): set<Identity> {
    set i | 0 <= i < |candles| :: IdentityOf(candles[i])
  }

  /** Why a candle is refused, given those that came before it. */
  function AdmissionError(candle: Candle, earlier: seq<Candle>, symbol: string, until: int): Option<Error> {
    if CandleError(candle, symbol).Some? then CandleError(candle, symbol)
    else if IdentityOf(candle) in Identities(earlier) then Some(DuplicateCandle)
    else if candle.closeTime.at > until then Some(CandleAfterWindow)
    else None
  }

  /** The candles that count, in the order given. */
  function Collected(candles: seq<Candle>, symbol: string, publishedAt: int, until: int): Result<seq<Candle>, Error> {
    if candles == [] then Ok([])
    else
      var earlier, last := candles[..|candles| - 1], candles[|candles| - 1];
      match Collected(earlier, symbol, publishedAt, until)
      case Err(error) => Err(error)
      case Ok(kept) =>
        match AdmissionError(last, earlier, symbol, until)
        case Some(error) => Err(error)
        case None => Ok(if last.closeTime.at < publishedAt then kept else kept + [last])
  }

  lemma {:induction false} CollectedFails(candles: seq<Candle>, symbol: string, publishedAt: int, until: int, n: nat)
    requires n <= |candles| && Collected(candles[..n], symbol, publishedAt, until).Err?
    ensures Collected(candles, symbol, publishedAt, until) == Collected(candles[..n], symbol, publishedAt, until)
  {
    if n < |candles| {
      var shorter := candles[..|candles| - 1];
      assert shorter[..n] == candles[..n];
      CollectedFails(shorter, symbol, publishedAt, until, n);
    } else {
      assert candles[..n] == candles;
    }
  }

  method ValidateAndOrderCandles(candles: seq<Candle>, symbol: string, publishedAt: int, until: int)
    returns (ordered: Result<seq<Candle>, Error>)
    ensures match Collected(candles, symbol, publishedAt, until)
            case Ok(kept) => ordered == Ok(Ordered(kept))
            case Err(error) => ordered == Err(error)
  {
    var result: seq<Candle> := [];
    var identities: set<Identity> := {};
    for i := 0 to |candles|
      invariant identities == Identities(candles[..i])
      invariant Collected(candles[..i], symbol, publishedAt, until) == Ok(result)
    {
      var candle := candles[i];
      assert candles[..i + 1][..i] == candles[..i];
      var invalid := CandleError(candle, symbol);
      if invalid.Some? || IdentityOf(candle) in identities || candle.closeTime.at > until {
        CollectedFails(candles, symbol, publishedAt, until, i + 1);
        return Err(if invalid.Some? then invalid.value
                   else if IdentityOf(candle) in identities then DuplicateCandle else CandleAfterWindow);
      }
      assert Identities(candles[..i + 1]) == identities + {IdentityOf(candle)} by {
        assert forall k :: 0 <= k < i ==> candles[..i + 1][k] == candles[..i][k];
      }
      identities := identities + {IdentityOf(candle)};
      if candle.closeTime.at < publishedAt { continue; }
      result := result + [candle];
    }
    assert candles[..|candles|] == candles;
    return Ok(Ordered(result));
  }

  // ---------------------------------------------------------------- touches

  predicate TouchesEntry(c: Candle, p: Publication) { c.high >= p.entryMin && c.low <= p.entryMax }

  predicate TouchesTarget(c: Candle, p: Publication) {
    if p.side == Long then c.high >= p.tp1 else c.low <= p.tp1
  }

  predicate TouchesInvalidation(c: Candle, p: Publication) {
    if p.side == Long then c.low <= p.stopLoss else c.high >= p.stopLoss
  }

  function Untouched(): Outcome { Outcome(Observing, NotObserved, None, None, None, None) }

  function CancelledOutcome(cancellation: Cancellation): Outcome {
    Outcome(Cancelled, NotObserved, None, None, Some(CancelledFor(cancellation.reasonCode)), Some(cancellation))
  }

  /** What one candle decides, if it decides anything. */
  function Decision(c: Candle, p: Publication, cancellation: Option<Cancellation>): Option<Outcome> {
    var entry, target, invalidation := TouchesEntry(c, p), TouchesTarget(c, p), TouchesInvalidation(c, p);
    if cancellation.Some? && cancellation.value.cancelledAt < c.closeTime.at then Some(CancelledOutcome(cancellation.value))
    else if (entry && target) || (entry && invalidation) || (target && invalidation) then
      Some(Outcome(Ambiguous, FillAmbiguous, None, None, Some(MultipleFirstTouches), None))
    else if entry then Some(Outcome(EntryZoneTouched, FillTouched, Some(c.closeTime), Some(c), Some(EntryTouched), None))
    else if target then Some(Outcome(TargetReachedBeforeEntry, FillTargetFirst, None, None, Some(TargetFirst), None))
    else if invalidation then
      Some(Outcome(InvalidatedBeforeEntry, FillInvalidatedFirst, None, None, Some(InvalidatedFirst), None))
    else None
  }

  /** What the candles leave open is settled by the window's end. */
  function Tail(p: Publication, cancellation: Option<Cancellation>, until: int): Outcome {
    if cancellation.Some? && cancellation.value.cancelledAt <= until then CancelledOutcome(cancellation.value)
    else if until > p.validUntil then Outcome(ExpiredUntouched, FillExpired, None, None, Some(ValidityExpired), None)
    else Untouched()
  }

  /** The first decision in a list of candles. */
  function First(candles: seq<Candle>, p: Publication, cancellation: Option<Cancellation>): Option<Outcome> {
    if candles == [] then None
    else if Decision(candles[0], p, cancellation).Some? then Decision(candles[0], p, cancellation)
    else First(candles[1..], p, cancellation)
  }

  function OutcomeOf(ordered: seq<Candle>, p: Publication, cancellation: Option<Cancellation>, until: int): Outcome {
    match First(ordered, p, cancellation)
    case Some(outcome) => outcome
    case None => Tail(p, cancellation, until)
  }

  function SetupError(p: Publication, from: int, until: int, cancellation: Option<Cancellation>): Option<Error> {
    if PublicationError(p).Some? then PublicationError(p)
    else if WindowError(p.publishedAt, from, until).Some? then WindowError(p.publishedAt, from, until)
    else CancellationError(cancellation, p.publishedAt)
  }

  function Observed(p: Publication, candles: seq<Candle>, from: int, until: int, cancellation: Option<Cancellation>)
    : Result<Observation, Error>
  {
    match SetupError(p, from, until, cancellation)
    case Some(error) => Err(error)
    case None =>
      match Collected(candles, p.symbol, p.publishedAt, until)
      case Err(error) => Err(error)
      case Ok(kept) => Ok(Observation(OutcomeOf(Ordered(kept), p, cancellation, until), Ordered(kept)))
  }

  lemma {:induction false} FirstSkips(candles: seq<Candle>, n: nat, p: Publication, cancellation: Option<Cancellation>)
    requires n <= |candles| && forall k :: 0 <= k < n ==> Decision(candles[k], p, cancellation).None?
    ensures First(candles, p, cancellation) == First(candles[n..], p, cancellation)
  {
    if n > 0 {
      assert candles[1..][n - 1..] == candles[n..];
      FirstSkips(candles[1..], n - 1, p, cancellation);
    }
  }

  /** The observer's loop: it leaves at the first candle that decides, and looks at the end of the
      window only if none does. */
  method ObservePaperSignal(p: Publication, candles: seq<Candle>, from: int, until: int,
                            cancellation: Option<Cancellation>)
    returns (observation: Result<Observation, Error>)
    ensures observation == Observed(p, candles, from, until, cancellation)
  {
    var refused := SetupError(p, from, until, cancellation);
    if refused.Some? { return Err(refused.value); }
    var ordered := ValidateAndOrderCandles(candles, p.symbol, p.publishedAt, until);
    if ordered.Err? { return Err(ordered.error); }

    var state, fill := Observing, NotObserved;
    var touchedAt: Option<Stamp>, touchCandle: Option<Candle>, reason: Option<Reason> := None, None, None;
    var selected: Option<Cancellation> := None;
    var list := ordered.value;
    var i := 0;
    while i < |list|
      invariant i <= |list| && forall k :: 0 <= k < i ==> Decision(list[k], p, cancellation).None?
      invariant Outcome(state, fill, touchedAt, touchCandle, reason, selected) == Untouched()
    {
      var candle := list[i];
      FirstSkips(list, i, p, cancellation);
      if cancellation.Some? && cancellation.value.cancelledAt < candle.closeTime.at {
        state, fill, reason, selected := Cancelled, NotObserved, Some(CancelledFor(cancellation.value.reasonCode)), cancellation;
        break;
      }
      var entry, target := TouchesEntry(candle, p), TouchesTarget(candle, p);
      var invalidation := TouchesInvalidation(candle, p);
      var count := (if entry then 1 else 0) + (if target then 1 else 0) + (if invalidation then 1 else 0);
      if count > 1 {
        state, fill, reason := Ambiguous, FillAmbiguous, Some(MultipleFirstTouches);
        break;
      }
      if entry {
        state, fill, reason := EntryZoneTouched, FillTouched, Some(EntryTouched);
        touchedAt, touchCandle := Some(candle.closeTime), Some(candle);
        break;
      }
      if target {
        state, fill, reason := TargetReachedBeforeEntry, FillTargetFirst, Some(TargetFirst);
        break;
      }
      if invalidation {
        state, fill, reason := InvalidatedBeforeEntry, FillInvalidatedFirst, Some(InvalidatedFirst);
        break;
      }
      i := i + 1;
    }
    if state == Observing {
      FirstSkips(list, |list|, p, cancellation);
      if cancellation.Some? && cancellation.value.cancelledAt <= until {
        state, reason, selected := Cancelled, Some(CancelledFor(cancellation.value.reasonCode)), cancellation;
      }
    }
    if state == Observing && until > p.validUntil {
      state, fill, reason := ExpiredUntouched, FillExpired, Some(ValidityExpired);
    }
    return Ok(Observation(Outcome(state, fill, touchedAt, touchCandle, reason, selected), list));
  }
}
