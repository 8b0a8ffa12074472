/** Swing highs and lows, and the resolver that pairs the latest usable one with the nearest
    opposite swing before it. */
module SwingResolver {
  import opened Wrappers
  import opened CanonicalPair

  datatype Candle = Candle(timestamp: int, high: real, low: real)

  datatype Direction = Bullish | Bearish

  datatype Pair = Pair(direction: Direction, lowIndex: nat, highIndex: nat, lowAt: int, highAt: int,
                       swingLow: real, swingHigh: real)

  datatype Error = UnsupportedTrend

  function Upper(s: string): string {
    if s == [] then [] else [UpperChar(s[0])] + Upper(s[1..])
  }

  // ---------------------------------------------------------------- swings

  function HighestOf(window: seq<Candle>): real
    requires window != []
  {
    var last := window[|window| - 1].high;
    if |window| == 1 then last
    else var rest := HighestOf(window[..|window| - 1]); if last > rest then last else rest
  }

  function LowestOf(window: seq<Candle>): real
    requires window != []
  {
    var last := window[|window| - 1].low;
    if |window| == 1 then last
    else var rest := LowestOf(window[..|window| - 1]); if last < rest then last else rest
  }

  lemma {:induction false} HighestIsMaximum(window: seq<Candle>)
    requires window != []
    ensures forall k :: 0 <= k < |window| ==> window[k].high <= HighestOf(window)
    ensures exists k :: 0 <= k < |window| && window[k].high == HighestOf(window)
  {
    if |window| > 1 {
      var shorter := window[..|window| - 1];
      HighestIsMaximum(shorter);
      var k :| 0 <= k < |shorter| && shorter[k].high == HighestOf(shorter);
      assert window[k].high == HighestOf(shorter) && window[|window| - 1].high <= HighestOf(window);
    }
  }

  lemma {:induction false} LowestIsMinimum(window: seq<Candle>)
    requires window != []
    ensures forall k :: 0 <= k < |window| ==> LowestOf(window) <= window[k].low
    ensures exists k :: 0 <= k < |window| && window[k].low == LowestOf(window)
  {
    if |window| > 1 {
      var shorter := window[..|window| - 1];
      LowestIsMinimum(shorter);
      var k :| 0 <= k < |shorter| && shorter[k].low == LowestOf(shorter);
      assert window[k].low == LowestOf(shorter) && LowestOf(window) <= window[|window| - 1].low;
    }
  }

  /** No candle from `left` before to `right` after is higher. */
  predicate IsSwingHigh(candles: seq<Candle>, i: int, left: nat, right: nat) {
    left <= i < |candles| - right && forall k :: i - left <= k <= i + right ==> candles[k].high <= candles[i].high
  }

  predicate IsSwingLow(candles: seq<Candle>, i: int, left: nat, right: nat) {
    left <= i < |candles| - right && forall k :: i - left <= k <= i + right ==> candles[i].low <= candles[k].low
  }

  predicate Ascending(s: seq<nat>) {
    forall i, j :: 0 <= i < j < |s| ==> s[i] < s[j]
  }

  method SwingHighs(candles: seq<Candle>, left: nat, right: nat) returns (highs: seq<nat>)
    ensures Ascending(highs)
    ensures forall i :: i in highs <==> IsSwingHigh(candles, i, left, right)
  {
    highs := [];
    var i := left;
    while i < |candles| - right
      invariant left <= i && (i <= |candles| - right || highs == [])
      invariant Ascending(highs) && forall j :: 0 <= j < |highs| ==> highs[j] < i
      invariant forall k :: k in highs <==> k < i && IsSwingHigh(candles, k, left, right)
    {
      var window := candles[i - left..i + right + 1];
      HighestIsMaximum(window);
      assert window[left] == candles[i];
      if candles[i].high == HighestOf(window) {
        assert forall k :: i - left <= k <= i + right ==> candles[k] == window[k - (i - left)];
        highs := highs + [i];
      } else {
        var k :| 0 <= k < |window| && window[k].high == HighestOf(window);
        assert candles[i - left + k] == window[k];
      }
      i := i + 1;
    }
  }

  method SwingLows(candles: seq<Candle>, left: nat, right: nat) returns (lows: seq<nat>)
    ensures Ascending(lows)
    ensures forall i :: i in lows <==> IsSwingLow(candles, i, left, right)
  {
    lows := [];
    var i := left;
    while i < |candles| - right
      invariant left <= i && (i <= |candles| - right || lows == [])
      invariant Ascending(lows) && forall j :: 0 <= j < |lows| ==> lows[j] < i
      invariant forall k :: k in lows <==> k < i && IsSwingLow(candles, k, left, right)
    {
      var window := candles[i - left..i + right + 1];
      LowestIsMinimum(window);
      assert window[left] == candles[i];
      if candles[i].low == LowestOf(window) {
        assert forall k :: i - left <= k <= i + right ==> candles[k] == window[k - (i - left)];
        lows := lows + [i];
      } else {
        var k :| 0 <= k < |window| && window[k].low == LowestOf(window);
        assert candles[i - left + k] == window[k];
      }
      i := i + 1;
    }
  }

  // ---------------------------------------------------------------- the pair

  const SIDE: nat := 2

  /** The swings a direction anchors on, and the swings it pairs them with. */
  predicate IsAnchor(candles: seq<Candle>, direction: Direction, i: int) {
    if direction == Bullish then IsSwingHigh(candles, i, SIDE, SIDE) else IsSwingLow(candles, i, SIDE, SIDE)
  }

  predicate IsOpposite(candles: seq<Candle>, direction: Direction, i: int) {
    if direction == Bullish then IsSwingLow(candles, i, SIDE, SIDE) else IsSwingHigh(candles, i, SIDE, SIDE)
  }

  /** The nearest opposite swing before an anchor. */
  ghost predicate IsNearest(candles: seq<Candle>, direction: Direction, anchor: int, opposite: int) {
    opposite < anchor && IsOpposite(candles, direction, opposite)
    && forall k :: opposite < k < anchor ==> !IsOpposite(candles, direction, k)
  }

  function PairOf(candles: seq<Candle>, direction: Direction, anchor: nat, opposite: nat): Pair
    requires anchor < |candles| && opposite < |candles|
  {
    var low, high := if direction == Bullish then opposite else anchor, if direction == Bullish then anchor else opposite;
    Pair(direction, low, high, candles[low].timestamp, candles[high].timestamp, candles[low].low, candles[high].high)
  }

  /** An anchor with a nearest opposite swing and a positive range. */
  ghost predicate Qualifies(candles: seq<Candle>, direction: Direction, anchor: int, opposite: int) {
    && IsAnchor(candles, direction, anchor) && IsNearest(candles, direction, anchor, opposite)
    && PairOf(candles, direction, anchor, opposite).swingLow < PairOf(candles, direction, anchor, opposite).swingHigh
  }

  ghost predicate AnchorQualifies(candles: seq<Candle>, direction: Direction, anchor: int) {
    exists opposite :: Qualifies(candles, direction, anchor, opposite)
  }

  /** What the resolver answers for a direction: the pair of the latest qualifying anchor, if any. */
  ghost predicate Resolves(candles: seq<Candle>, direction: Direction, answer: Option<Pair>) {
    match answer
    case None => forall anchor :: !AnchorQualifies(candles, direction, anchor)
    case Some(pair) =>
      exists anchor: nat, opposite: nat ::
        && Qualifies(candles, direction, anchor, opposite) && pair == PairOf(candles, direction, anchor, opposite)
        && forall later :: later > anchor ==> !AnchorQualifies(candles, direction, later)
  }

  /** The indices before an anchor, collected in order. */
  method Prior(indices: seq<nat>, anchor: nat) returns (prior: seq<nat>)
    requires Ascending(indices)
    ensures Ascending(prior) && forall i :: i in prior <==> i in indices && i < anchor
  {
    prior := [];
    for k := 0 to |indices|
      invariant Ascending(prior) && forall i :: i in prior <==> i in indices[..k] && i < anchor
    {
      assert indices[..k + 1] == indices[..k] + [indices[k]];
      if indices[k] < anchor {
        forall j | 0 <= j < |prior| ensures prior[j] < indices[k] { assert prior[j] in indices[..k]; }
        prior := prior + [indices[k]];
      }
    }
    assert indices[..|indices|] == indices;
  }

  /** The last of the prior indices is the nearest. */
  lemma LastIsNearest(candles: seq<Candle>, direction: Direction, prior: seq<nat>, anchor: nat)
    requires Ascending(prior) && prior != []
    requires forall i: int :: (0 <= i && i in prior) <==> IsOpposite(candles, direction, i) && i < anchor
    ensures IsNearest(candles, direction, anchor, prior[|prior| - 1])
    ensures forall o :: IsNearest(candles, direction, anchor, o) ==> o == prior[|prior| - 1]
  {
    var last := prior[|prior| - 1];
    assert last in prior;
    forall k | k in prior ensures k <= last {
      var j :| 0 <= j < |prior| && prior[j] == k;
    }
  }

  /** The reverse search over the anchors of one direction. */
  method Search(candles: seq<Candle>, direction: Direction, anchors: seq<nat>,
                opposites: seq<nat>) returns (answer: Option<Pair>)
    requires Ascending(anchors) && Ascending(opposites)
    requires forall i: int :: (0 <= i && i in anchors) <==> IsAnchor(candles, direction, i)
    requires forall i: int :: (0 <= i && i in opposites) <==> IsOpposite(candles, direction, i)
    ensures Resolves(candles, direction, answer)
  {
    var n := |anchors|;
    while n > 0
      invariant 0 <= n <= |anchors|
      invariant forall j :: n <= j < |anchors| ==> !AnchorQualifies(candles, direction, anchors[j])
    {
      n := n - 1;
      var anchor := anchors[n];
      assert anchor in anchors;
      var prior := Prior(opposites, anchor);
      if prior == [] {
        assert forall o :: IsNearest(candles, direction, anchor, o) ==> o in prior;
        continue;
      }
      LastIsNearest(candles, direction, prior, anchor);
      var opposite := prior[|prior| - 1];
      assert opposite in opposites;
      var pair := PairOf(candles, direction, anchor, opposite);
      if pair.swingHigh <= pair.swingLow { continue; }
      assert Qualifies(candles, direction, anchor, opposite);
      LaterAnchors(candles, direction, anchors, n);
      return Some(pair);
    }
    LaterAnchors(candles, direction, anchors, -1);
    return None;
  }

  lemma LaterAnchors(candles: seq<Candle>, direction: Direction, anchors: seq<nat>, n: int)
    requires Ascending(anchors) && -1 <= n < |anchors|
    requires forall i: int :: (0 <= i && i in anchors) <==> IsAnchor(candles, direction, i)
    requires forall j :: n < j < |anchors| ==> !AnchorQualifies(candles, direction, anchors[j])
    ensures forall later :: (n == -1 || later > anchors[n]) ==> !AnchorQualifies(candles, direction, later)
  {
    forall a | a in anchors && (n == -1 || a > anchors[n]) ensures !AnchorQualifies(candles, direction, a) {
      var j :| 0 <= j < |anchors| && anchors[j] == a;
    }
  }

  /** The resolver: nothing in a sideways market, an error for an unknown trend, otherwise the
      search in the direction of the trend. */
  method ResolveGoldenZoneSwingPair(candles: seq<Candle>, trend: string) returns (answer: Result<Option<Pair>, Error>)
    ensures Upper(trend) == "SIDEWAYS" ==> answer == Ok(None)
    ensures Upper(trend) == "UPTREND" ==> answer.Ok? && Resolves(candles, Bullish, answer.value)
    ensures Upper(trend) == "DOWNTREND" ==> answer.Ok? && Resolves(candles, Bearish, answer.value)
    ensures answer.Err? <==> Upper(trend) !in {"SIDEWAYS", "UPTREND", "DOWNTREND"}
  {
    var upper := Upper(trend);
    if upper == "SIDEWAYS" { return Ok(None); }
    var highs := SwingHighs(candles, SIDE, SIDE);
    var lows := SwingLows(candles, SIDE, SIDE);
    if upper == "UPTREND" {
      var found := Search(candles, Bullish, highs, lows);
      return Ok(found);
    }
    if upper == "DOWNTREND" {
      var found := Search(candles, Bearish, lows, highs);
      return Ok(found);
    }
    return Err(UnsupportedTrend);
  }

  // ---------------------------------------------------------------- appending candles

  /** Where the appended candles cannot reach, the swings are what they were. */
  lemma SwingsStay(candles: seq<Candle>, more: seq<Candle>, direction: Direction, i: int)
    requires i < |candles| - SIDE
    ensures IsAnchor(candles + more, direction, i) == IsAnchor(candles, direction, i)
    ensures IsOpposite(candles + more, direction, i) == IsOpposite(candles, direction, i)
  {
    assert forall k :: 0 <= k < |candles| ==> (candles + more)[k] == candles[k];
  }

  /** No swing that was detected is lost. */
  lemma SwingsAreNeverRemoved(candles: seq<Candle>, more: seq<Candle>, i: int, left: nat, right: nat)
    ensures IsSwingHigh(candles, i, left, right) ==> IsSwingHigh(candles + more, i, left, right)
    ensures IsSwingLow(candles, i, left, right) ==> IsSwingLow(candles + more, i, left, right)
  {
    assert forall k :: 0 <= k < |candles| ==> (candles + more)[k] == candles[k];
  }

  lemma QualificationStays(candles: seq<Candle>, more: seq<Candle>, direction: Direction, anchor: nat, opposite: nat)
    requires anchor < |candles| - SIDE
    ensures Qualifies(candles + more, direction, anchor, opposite) == Qualifies(candles, direction, anchor, opposite)
    ensures Qualifies(candles, direction, anchor, opposite) ==>
              PairOf(candles + more, direction, anchor, opposite) == PairOf(candles, direction, anchor, opposite)
  {
    forall k | k <= anchor
      ensures IsAnchor(candles + more, direction, k) == IsAnchor(candles, direction, k)
      ensures IsOpposite(candles + more, direction, k) == IsOpposite(candles, direction, k)
    {
      SwingsStay(candles, more, direction, k);
    }
  }

  function AnchorOf(pair: Pair): nat { if pair.direction == Bullish then pair.highIndex else pair.lowIndex }

  /** An anchor has one nearest opposite swing. */
  lemma NearestIsUnique(candles: seq<Candle>, direction: Direction, anchor: int, a: int, b: int)
    requires Qualifies(candles, direction, anchor, a) && Qualifies(candles, direction, anchor, b)
    ensures a == b
  {
  }

  /** As candles are appended, a pair never becomes none, its anchor never moves back, and as long
      as the anchor is the same the whole pair is. */
  lemma AppendingOnlyAdvances(candles: seq<Candle>, more: seq<Candle>, direction: Direction, earlier: Pair,
                              answer: Option<Pair>)
    requires Resolves(candles, direction, Some(earlier)) && Resolves(candles + more, direction, answer)
    ensures answer.Some? && AnchorOf(answer.value) >= AnchorOf(earlier)
    ensures AnchorOf(answer.value) == AnchorOf(earlier) ==> answer.value == earlier
  {
    var anchor: nat, opposite: nat :|
      && Qualifies(candles, direction, anchor, opposite) && earlier == PairOf(candles, direction, anchor, opposite)
      && forall later :: later > anchor ==> !AnchorQualifies(candles, direction, later);
    QualificationStays(candles, more, direction, anchor, opposite);
    assert AnchorQualifies(candles + more, direction, anchor);
    var newer: nat, other: nat :|
      && Qualifies(candles + more, direction, newer, other)
      && answer.value == PairOf(candles + more, direction, newer, other)
      && forall later :: later > newer ==> !AnchorQualifies(candles + more, direction, later);
    if newer == anchor { NearestIsUnique(candles + more, direction, anchor, opposite, other); }
  }

  /** The answer is determined by the candles. */
  lemma AnswerIsUnique(candles: seq<Candle>, direction: Direction, one: Option<Pair>, other: Option<Pair>)
    requires Resolves(candles, direction, one) && Resolves(candles, direction, other)
    ensures one == other
  {
    assert candles + [] == candles;
    if one.Some? { AppendingOnlyAdvances(candles, [], direction, one.value, other); }
    if other.Some? { AppendingOnlyAdvances(candles, [], direction, other.value, one); }
  }
}
