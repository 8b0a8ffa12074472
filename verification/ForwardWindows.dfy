/** The candle windows of the forward resolver: a horizon's window is exactly its contiguous
    four-hour candles, the windows of shorter horizons are its prefixes, and so excursions only
    widen from one horizon to the next. */
module ForwardWindows {
  import opened Wrappers
  import opened ForwardOutcome

  // ---------------------------------------------------------------- the opens

  /** The cursor yields exactly k contiguous opens for a span of k candles. */
  lemma {:induction false} OpensAreContiguous(close: int, k: nat)
    ensures |Opens(close, Later(close, k))| == k
    ensures forall i :: 0 <= i < k ==> Opens(close, Later(close, k))[i] == Later(close, i)
    decreases k
  {
    if k > 0 {
      OpensAreContiguous(close + FOUR_HOURS, k - 1);
      assert Later(close + FOUR_HOURS, k - 1) == Later(close, k);
    }
  }

  // ---------------------------------------------------------------- prefixes

  lemma {:induction false} RowsOfRows(candles: seq<Candle>, wide: seq<int>, narrow: seq<int>)
    requires forall t :: t in narrow ==> t in wide
    ensures Rows(Rows(candles, wide), narrow) == Rows(candles, narrow)
  {
    if candles != [] {
      var shorter, last := candles[..|candles| - 1], candles[|candles| - 1];
      RowsOfRows(shorter, wide, narrow);
      if last.timestamp in wide {
        assert Rows(candles, wide) == Rows(shorter, wide) + [last];
        assert Rows(candles, wide)[..|Rows(candles, wide)| - 1] == Rows(shorter, wide);
      } else {
        assert Rows(candles, wide) == Rows(shorter, wide) && Rows(candles, narrow) == Rows(shorter, narrow);
      }
    }
  }

  lemma {:induction false} RowsOfPrefix(window: seq<Candle>, j: nat, stamps: seq<int>, k: nat)
    requires j <= |window| == |stamps| && k <= |stamps|
    requires forall i :: 0 <= i < |window| ==> window[i].timestamp == stamps[i]
    requires forall a, b :: 0 <= a < b < |stamps| ==> stamps[a] != stamps[b]
    ensures Rows(window[..j], stamps[..k]) == window[..if j < k then j else k]
  {
    if j > 0 {
      RowsOfPrefix(window, j - 1, stamps, k);
      assert window[..j][..j - 1] == window[..j - 1];
      assert (stamps[j - 1] in stamps[..k]) == (j - 1 < k) by {
        if j - 1 < k { assert stamps[..k][j - 1] == stamps[j - 1]; }
      }
    }
  }

  lemma RowsOfFewer(candles: seq<Candle>, wide: seq<int>, k: nat)
    requires k <= |wide| && Stamps(Rows(candles, wide)) == wide
    requires forall a, b :: 0 <= a < b < |wide| ==> wide[a] != wide[b]
    ensures Rows(candles, wide[..k]) == Rows(candles, wide)[..k] && Stamps(Rows(candles, wide)[..k]) == wide[..k]
  {
    RowsOfRows(candles, wide, wide[..k]);
    RowsOfWindow(Rows(candles, wide), wide, k);
  }

  lemma RowsOfWindow(window: seq<Candle>, stamps: seq<int>, k: nat)
    requires k <= |stamps| && Stamps(window) == stamps
    requires forall a, b :: 0 <= a < b < |stamps| ==> stamps[a] != stamps[b]
    ensures Rows(window, stamps[..k]) == window[..k] && Stamps(window[..k]) == stamps[..k]
  {
    assert forall i :: 0 <= i < |window| ==> window[i].timestamp == Stamps(window)[i];
    RowsOfPrefix(window, |window|, stamps, k);
    assert window[..|window|] == window;
  }

  lemma OpensPrefix(close: int, k: nat, m: nat)
    requires k <= m
    ensures |Opens(close, Later(close, m))| == m
    ensures Opens(close, Later(close, k)) == Opens(close, Later(close, m))[..k]
    ensures forall a, b :: 0 <= a < b < m ==> Opens(close, Later(close, m))[a] != Opens(close, Later(close, m))[b]
  {
    OpensAreContiguous(close, m);
    OpensAreContiguous(close, k);
  }

  /** Where the window of m candles is complete, the window of fewer is its prefix. */
  lemma WindowPrefix(candles: seq<Candle>, close: int, k: nat, m: nat)
    requires k <= m && Window(candles, close, Later(close, m)).Ok?
    ensures |Window(candles, close, Later(close, m)).value| == m
    ensures Window(candles, close, Later(close, k)) == Ok(Window(candles, close, Later(close, m)).value[..k])
  {
    OpensPrefix(close, k, m);
    RowsOfFewer(candles, Opens(close, Later(close, m)), k);
  }

  // ---------------------------------------------------------------- excursions

  lemma {:induction false} ExtremesBound(window: seq<Candle>, i: nat)
    requires i < |window|
    ensures MinLow(window) <= window[i].low && window[i].high <= MaxHigh(window)
  {
    if i < |window| - 1 { ExtremesBound(window[..|window| - 1], i); }
  }

  lemma {:induction false} ExtremesWiden(window: seq<Candle>, k: nat)
    requires 0 < k <= |window|
    ensures MaxHigh(window[..k]) <= MaxHigh(window) && MinLow(window) <= MinLow(window[..k])
  {
    if k < |window| {
      var shorter := window[..|window| - 1];
      assert shorter[..k] == window[..k];
      ExtremesWiden(shorter, k);
    } else {
      assert window[..k] == window;
    }
  }

  lemma PercentIsMonotone(a: real, b: real, reference: real)
    requires reference > 0.0 && a <= b
    ensures Percent(a, reference) <= Percent(b, reference)
  {
    assert b / reference - a / reference == (b - a) / reference >= 0.0;
  }

  /** A complete horizon has exactly its rank in candles, and makes every shorter one complete on
      the prefix of its own window. */
  lemma HorizonPrefix(candles: seq<Candle>, price: real, reference: int, short: Horizon, long: Horizon)
    requires Computation(candles, price, reference, long).Ok? && 1 <= Rank(short) <= Rank(long)
    ensures Computation(candles, price, reference, short).Ok?
    ensures Window(candles, ReferenceClose(reference), TargetAt(reference, long)).Ok?
    ensures var window := Window(candles, ReferenceClose(reference), TargetAt(reference, long)).value;
            |window| == Rank(long) && Window(candles, ReferenceClose(reference), TargetAt(reference, short)) == Ok(window[..Rank(short)])
  {
    WindowPrefix(candles, ReferenceClose(reference), Rank(short), Rank(long));
  }

  lemma {:induction false} RowsComeFromFrame(candles: seq<Candle>, opens: seq<int>)
    ensures forall row :: row in Rows(candles, opens) ==> row in candles
  {
    if candles != [] {
      RowsComeFromFrame(candles[..|candles| - 1], opens);
      assert candles == candles[..|candles| - 1] + [candles[|candles| - 1]];
    }
  }

  lemma {:induction false} ExtremesAttained(window: seq<Candle>)
    requires window != []
    ensures exists i :: 0 <= i < |window| && window[i].high == MaxHigh(window)
    ensures exists i :: 0 <= i < |window| && window[i].low == MinLow(window)
  {
    var last := |window| - 1;
    assert window[last].high == MaxHigh(window) || (last > 0 && MaxHigh(window) == MaxHigh(window[..last]));
    assert window[last].low == MinLow(window) || (last > 0 && MinLow(window) == MinLow(window[..last]));
    if last > 0 {
      ExtremesAttained(window[..last]);
      var i :| 0 <= i < last && window[..last][i].high == MaxHigh(window[..last]);
      var j :| 0 <= j < last && window[..last][j].low == MinLow(window[..last]);
      assert window[i].high == MaxHigh(window[..last]) && window[j].low == MinLow(window[..last]);
    }
  }

  /** A percentage is what it is of the reference that the price differs from it by. */
  lemma PercentMeans(price: real, reference: real)
    requires reference > 0.0
    ensures Percent(price, reference) * reference == (price - reference) * 100.0
  {
    assert price / reference * reference == price;
  }

  /** The result of a horizon of k candles is taken from the frame's candles at the k contiguous
      opens after the reference closed: the last one's close, the highest high, the lowest low, and
      what percentage of the reference price each of them is above or below it. */
  lemma ResultMeans(candles: seq<Candle>, price: real, reference: int, horizon: Horizon) returns (window: seq<Candle>)
    requires Computation(candles, price, reference, horizon).Ok?
    ensures |window| == Rank(horizon) > 0
    ensures forall i :: 0 <= i < |window| ==>
              window[i] in candles && window[i].timestamp == Later(ReferenceClose(reference), i)
    ensures Computation(candles, price, reference, horizon).value.returnPrice == window[|window| - 1].close
    ensures forall i :: 0 <= i < |window| ==>
              && window[i].high <= Computation(candles, price, reference, horizon).value.mfePrice
              && Computation(candles, price, reference, horizon).value.maePrice <= window[i].low
    ensures exists i :: 0 <= i < |window|
                     && window[i].high == Computation(candles, price, reference, horizon).value.mfePrice
    ensures exists i :: 0 <= i < |window|
                     && window[i].low == Computation(candles, price, reference, horizon).value.maePrice
    ensures price > 0.0
    ensures var result := Computation(candles, price, reference, horizon).value;
            && result.returnPct * price == (result.returnPrice - price) * 100.0
            && result.mfePct * price == (result.mfePrice - price) * 100.0
            && result.maePct * price == (result.maePrice - price) * 100.0
  {
    PercentMeans(Computation(candles, price, reference, horizon).value.returnPrice, price);
    PercentMeans(Computation(candles, price, reference, horizon).value.mfePrice, price);
    PercentMeans(Computation(candles, price, reference, horizon).value.maePrice, price);
    var opens := Opens(ReferenceClose(reference), TargetAt(reference, horizon));
    window := Rows(candles, opens);
    OpensAreContiguous(ReferenceClose(reference), Rank(horizon));
    RowsComeFromFrame(candles, opens);
    forall i | 0 <= i < |window|
      ensures window[i].timestamp == Later(ReferenceClose(reference), i)
      ensures window[i].high <= MaxHigh(window) && MinLow(window) <= window[i].low
    {
      assert Stamps(window)[i] == opens[i];
      ExtremesBound(window, i);
    }
    ExtremesAttained(window);
  }

  /** The frame shows, in ascending order, a candle at each of k contiguous opens. */
  ghost predicate Shows(candles: seq<Candle>, close: int, k: nat) {
    exists at: seq<nat> :: ShownAt(candles, close, k, at)
  }

  ghost predicate ShownAt(candles: seq<Candle>, close: int, k: nat, at: seq<nat>) {
    && |at| == k
    && (forall i :: 0 <= i < k ==> at[i] < |candles| && candles[at[i]].timestamp == Later(close, i))
    && forall i, j :: 0 <= i < j < k ==> at[i] < at[j]
  }

  /** Where the rows come from, in order. */
  lemma {:induction false} RowPositions(candles: seq<Candle>, opens: seq<int>) returns (at: seq<nat>)
    ensures |at| == |Rows(candles, opens)|
    ensures forall i :: 0 <= i < |at| ==> at[i] < |candles| && candles[at[i]] == Rows(candles, opens)[i]
    ensures forall i, j :: 0 <= i < j < |at| ==> at[i] < at[j]
  {
    at := [];
    if candles != [] {
      var n := |candles| - 1;
      at := RowPositions(candles[..n], opens);
      if candles[n].timestamp in opens { at := at + [n]; }
    }
  }

  /** The positions `at`, in order, are those of the candles with a listed timestamp. */
  ghost predicate Locates(candles: seq<Candle>, opens: seq<int>, at: seq<nat>) {
    && (forall i :: 0 <= i < |at| ==> at[i] < |candles| && candles[at[i]].timestamp in opens)
    && (forall i, j :: 0 <= i < j < |at| ==> at[i] < at[j])
    && forall k :: 0 <= k < |candles| && candles[k].timestamp in opens ==> k in at
  }

  lemma LocatesFewer(candles: seq<Candle>, opens: seq<int>, at: seq<nat>)
    requires candles != [] && Locates(candles, opens, at)
    ensures candles[|candles| - 1].timestamp in opens ==>
              at != [] && at[|at| - 1] == |candles| - 1 && Locates(candles[..|candles| - 1], opens, at[..|at| - 1])
    ensures candles[|candles| - 1].timestamp !in opens ==> Locates(candles[..|candles| - 1], opens, at)
  {
    var n := |candles| - 1;
    if candles[n].timestamp in opens {
      var i :| 0 <= i < |at| && at[i] == n;
      assert at == at[..|at| - 1] + [at[|at| - 1]];
    }
  }

  lemma {:induction false} LocatedAreRows(candles: seq<Candle>, opens: seq<int>, at: seq<nat>)
    requires Locates(candles, opens, at)
    ensures |Rows(candles, opens)| == |at|
    ensures forall i :: 0 <= i < |at| ==> Rows(candles, opens)[i] == candles[at[i]]
  {
    assert at != [] ==> at[0] < |candles|;
    if candles != [] {
      LocatesFewer(candles, opens, at);
      var n := |candles| - 1;
      if candles[n].timestamp in opens { LocatedAreRows(candles[..n], opens, at[..|at| - 1]); }
      else { LocatedAreRows(candles[..n], opens, at); }
    }
  }

  /** Shown candles are all there are at the opens, when no timestamp is repeated. */
  lemma ShownAreLocated(candles: seq<Candle>, close: int, k: nat, at: seq<nat>, opens: seq<int>)
    requires ShownAt(candles, close, k, at) && !HasDuplicates(candles)
    requires |opens| == k && forall i :: 0 <= i < k ==> opens[i] == Later(close, i)
    ensures Locates(candles, opens, at)
  {
    forall i | 0 <= i < |at| ensures candles[at[i]].timestamp in opens { assert opens[i] in opens; }
    forall j | 0 <= j < |candles| && candles[j].timestamp in opens ensures j in at {
      var i :| 0 <= i < |opens| && opens[i] == candles[j].timestamp;
      assert at[i] == j;
    }
  }

  lemma WindowShows(candles: seq<Candle>, close: int, k: nat)
    requires Window(candles, close, Later(close, k)).Ok?
    ensures Shows(candles, close, k) && !HasDuplicates(candles)
  {
    var opens := Opens(close, Later(close, k));
    OpensAreContiguous(close, k);
    var at := RowPositions(candles, opens);
    forall i | 0 <= i < k ensures candles[at[i]].timestamp == Later(close, i) {
      assert Stamps(Rows(candles, opens))[i] == opens[i];
    }
    assert ShownAt(candles, close, k, at);
  }

  lemma ShownIsWindow(candles: seq<Candle>, close: int, k: nat)
    requires Shows(candles, close, k) && !HasDuplicates(candles)
    ensures Window(candles, close, Later(close, k)).Ok? && |Window(candles, close, Later(close, k)).value| == k
  {
    var at :| ShownAt(candles, close, k, at);
    OpensAreContiguous(close, k);
    ShownAreLocated(candles, close, k, at, Opens(close, Later(close, k)));
    LocatedAreRows(candles, Opens(close, Later(close, k)), at);
  }

  /** A horizon can be computed if and only if the reference price is positive, the frame has no
      duplicate timestamps, and it shows the horizon's candles in order. */
  lemma ComputableExactlyWhen(candles: seq<Candle>, price: real, reference: int, horizon: Horizon)
    requires IsKnown(horizon)
    ensures Computation(candles, price, reference, horizon).Ok?
       <==> price > 0.0 && !HasDuplicates(candles) && Shows(candles, ReferenceClose(reference), Rank(horizon))
  {
    if Window(candles, ReferenceClose(reference), TargetAt(reference, horizon)).Ok? {
      WindowShows(candles, ReferenceClose(reference), Rank(horizon));
    }
    if Shows(candles, ReferenceClose(reference), Rank(horizon)) && !HasDuplicates(candles) {
      ShownIsWindow(candles, ReferenceClose(reference), Rank(horizon));
    }
  }

  /** From one horizon to a longer one the best excursion never falls and the worst never rises. */
  lemma ExcursionsWiden(candles: seq<Candle>, price: real, reference: int, short: Horizon, long: Horizon)
    requires Computation(candles, price, reference, long).Ok? && 1 <= Rank(short) <= Rank(long)
    ensures Computation(candles, price, reference, short).Ok?
    ensures var early := Computation(candles, price, reference, short).value;
            var late := Computation(candles, price, reference, long).value;
            early.mfePrice <= late.mfePrice && early.mfePct <= late.mfePct
            && late.maePrice <= early.maePrice && late.maePct <= early.maePct
  {
    HorizonPrefix(candles, price, reference, short, long);
    var early := Computation(candles, price, reference, short).value;
    var late := Computation(candles, price, reference, long).value;
    ExtremesWiden(Window(candles, ReferenceClose(reference), TargetAt(reference, long)).value, Rank(short));
    PercentIsMonotone(early.mfePrice, late.mfePrice, price);
    PercentIsMonotone(late.maePrice, early.maePrice, price);
  }

  predicate IsCandle(candle: Candle) { candle.low <= candle.close <= candle.high }

  lemma {:induction false} RowsAreCandles(candles: seq<Candle>, opens: seq<int>)
    requires forall i :: 0 <= i < |candles| ==> IsCandle(candles[i])
    ensures forall i :: 0 <= i < |Rows(candles, opens)| ==> IsCandle(Rows(candles, opens)[i])
  {
    if candles != [] { RowsAreCandles(candles[..|candles| - 1], opens); }
  }

  /** Between well-formed candles the return lies between the two excursions. */
  lemma ReturnIsWithinExcursions(candles: seq<Candle>, price: real, reference: int, horizon: Horizon)
    requires Computation(candles, price, reference, horizon).Ok?
    requires forall i :: 0 <= i < |candles| ==> IsCandle(candles[i])
    ensures var result := Computation(candles, price, reference, horizon).value;
            result.maePrice <= result.returnPrice <= result.mfePrice && result.maePct <= result.returnPct <= result.mfePct
  {
    var result := Computation(candles, price, reference, horizon).value;
    var window := Window(candles, ReferenceClose(reference), TargetAt(reference, horizon)).value;
    RowsAreCandles(candles, Opens(ReferenceClose(reference), TargetAt(reference, horizon)));
    ExtremesBound(window, |window| - 1);
    PercentIsMonotone(result.maePrice, result.returnPrice, price);
    PercentIsMonotone(result.returnPrice, result.mfePrice, price);
  }
}
