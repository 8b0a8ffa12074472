/** What the swing resolver answers, in the candles' own highs and lows. */
module SwingMeaning {
  import opened Wrappers
  import opened CanonicalPair
  import opened CanonicalPairMeaning
  import opened SwingResolver

  // ---------------------------------------------------------------- the trend's spelling

  /** The text is the word, in whatever case its letters are. */
  predicate SpellsInAnyCase(text: string, word: string) {
    |text| == |word| && forall i :: 0 <= i < |word| ==> text[i] == word[i] || OtherCase(text[i], word[i])
  }

  predicate HasNoSmall(word: string) {
    forall i :: 0 <= i < |word| ==> !IsSmall(word[i])
  }

  /** A trend reads as a word of capitals exactly when it spells it in some case. */
  lemma {:induction false} UpperMeans(text: string, word: string)
    requires HasNoSmall(word)
    ensures Upper(text) == word <==> SpellsInAnyCase(text, word)
  {
    if text != "" && word != "" {
      UpperMeans(text[1..], word[1..]);
      assert word == [word[0]] + word[1..];
      SpellsFromFirst(text, word);
    }
  }

  lemma SpellsFromFirst(text: string, word: string)
    requires text != "" && word != ""
    ensures SpellsInAnyCase(text, word)
       <==> (text[0] == word[0] || OtherCase(text[0], word[0])) && SpellsInAnyCase(text[1..], word[1..])
  {
    if SpellsInAnyCase(text[1..], word[1..]) && (text[0] == word[0] || OtherCase(text[0], word[0])) {
      forall i | 0 <= i < |word| ensures text[i] == word[i] || OtherCase(text[i], word[i]) {
        if i > 0 { assert text[i] == text[1..][i - 1] && word[i] == word[1..][i - 1]; }
      }
    }
  }

  /** The three trends, however they are spelt, and nothing else. */
  lemma {:induction false} TrendsMean(trend: string)
    ensures Upper(trend) == "UPTREND" <==> SpellsInAnyCase(trend, "UPTREND")
    ensures Upper(trend) == "DOWNTREND" <==> SpellsInAnyCase(trend, "DOWNTREND")
    ensures Upper(trend) == "SIDEWAYS" <==> SpellsInAnyCase(trend, "SIDEWAYS")
  {
    UpperMeans(trend, "UPTREND");
    UpperMeans(trend, "DOWNTREND");
    UpperMeans(trend, "SIDEWAYS");
  }

  /** No small letter is left, and the case of a letter does not matter. */
  lemma {:induction false} CaseOfTrendDoesNotMatter(left: string, a: char, b: char, right: string)
    requires OtherCase(a, b)
    ensures Upper(left + [a] + right) == Upper(left + [b] + right)
    ensures forall c :: c in Upper(left + [a] + right) ==> !IsSmall(c)
  {
    UpperHasNoSmall(left + [a] + right);
    var word := Upper(left + [a] + right);
    assert HasNoSmall(word) by {
      forall i | 0 <= i < |word| ensures !IsSmall(word[i]) { assert word[i] in word; }
    }
    UpperMeans(left + [a] + right, word);
    UpperMeans(left + [b] + right, word);
    OneLetterApart(left, a, b, right, word);
  }

  lemma OneLetterApart(left: string, a: char, b: char, right: string, word: string)
    requires OtherCase(a, b) && HasNoSmall(word) && SpellsInAnyCase(left + [a] + right, word)
    ensures SpellsInAnyCase(left + [b] + right, word)
  {
    var was, now := left + [a] + right, left + [b] + right;
    forall i | 0 <= i < |word| ensures now[i] == word[i] || OtherCase(now[i], word[i]) {
      if i == |left| { assert was[i] == a && now[i] == b; } else { assert was[i] == now[i]; }
    }
  }

  lemma {:induction false} UpperHasNoSmall(text: string)
    ensures forall c :: c in Upper(text) ==> !IsSmall(c)
  {
    if text != "" { UpperHasNoSmall(text[1..]); }
  }

  // ---------------------------------------------------------------- swings

  /** For any number of neighbours: a swing high has `left` before it and `right` after it, none of them
      higher; a swing low likewise, none of them lower. */
  lemma SwingsMean(candles: seq<Candle>, i: int, left: nat, right: nat)
    ensures IsSwingHigh(candles, i, left, right)
       <==> && left <= i && i + right < |candles|
            && (forall k :: i - left <= k < i ==> candles[k].high <= candles[i].high)
            && forall k :: i < k <= i + right ==> candles[k].high <= candles[i].high
    ensures IsSwingLow(candles, i, left, right)
       <==> && left <= i && i + right < |candles|
            && (forall k :: i - left <= k < i ==> candles[k].low >= candles[i].low)
            && forall k :: i < k <= i + right ==> candles[k].low >= candles[i].low
  {
  }

  // ---------------------------------------------------------------- the answer

  /** Neither of the two candles on either side is higher. */
  predicate IsTop(candles: seq<Candle>, i: int) {
    && 2 <= i < |candles| - 2
    && candles[i - 2].high <= candles[i].high && candles[i - 1].high <= candles[i].high
    && candles[i + 1].high <= candles[i].high && candles[i + 2].high <= candles[i].high
  }

  /** Neither of the two candles on either side is lower. */
  predicate IsBottom(candles: seq<Candle>, i: int) {
    && 2 <= i < |candles| - 2
    && candles[i - 2].low >= candles[i].low && candles[i - 1].low >= candles[i].low
    && candles[i + 1].low >= candles[i].low && candles[i + 2].low >= candles[i].low
  }

  lemma TopsAndBottoms(candles: seq<Candle>, i: int)
    ensures IsTop(candles, i) <==> IsSwingHigh(candles, i, 2, 2)
    ensures IsBottom(candles, i) <==> IsSwingLow(candles, i, 2, 2)
  {
    if IsTop(candles, i) {
      forall k | i - 2 <= k <= i + 2 ensures candles[k].high <= candles[i].high {
        assert k == i - 2 || k == i - 1 || k == i || k == i + 1 || k == i + 2;
      }
    }
    if IsBottom(candles, i) {
      forall k | i - 2 <= k <= i + 2 ensures candles[i].low <= candles[k].low {
        assert k == i - 2 || k == i - 1 || k == i || k == i + 1 || k == i + 2;
      }
    }
  }

  /** A top, and the last bottom before it, which is lower than it. */
  ghost predicate Rises(candles: seq<Candle>, low: int, high: int) {
    && IsTop(candles, high) && IsBottom(candles, low) && low < high && candles[low].low < candles[high].high
    && forall k :: low < k < high ==> !IsBottom(candles, k)
  }

  /** A bottom, and the last top before it, which is higher than it. */
  ghost predicate Falls(candles: seq<Candle>, high: int, low: int) {
    && IsBottom(candles, low) && IsTop(candles, high) && high < low && candles[low].low < candles[high].high
    && forall k :: high < k < low ==> !IsTop(candles, k)
  }

  lemma RiseMeans(candles: seq<Candle>, low: int, high: int)
    ensures Rises(candles, low, high) <==> Qualifies(candles, Bullish, high, low)
  {
    forall k ensures IsBottom(candles, k) <==> IsOpposite(candles, Bullish, k) { TopsAndBottoms(candles, k); }
    TopsAndBottoms(candles, high);
  }

  lemma FallMeans(candles: seq<Candle>, high: int, low: int)
    ensures Falls(candles, high, low) <==> Qualifies(candles, Bearish, low, high)
  {
    forall k ensures IsTop(candles, k) <==> IsOpposite(candles, Bearish, k) { TopsAndBottoms(candles, k); }
    TopsAndBottoms(candles, low);
  }

  /** In an uptrend the answer is the latest top that rises from its last bottom, with that bottom:
      no answer exactly when there is none. */
  lemma UptrendMeans(candles: seq<Candle>, answer: Option<Pair>)
    requires Resolves(candles, Bullish, answer)
    ensures answer == None <==> forall low, high :: !Rises(candles, low, high)
    ensures answer != None ==>
              var p := answer.value;
              && Rises(candles, p.lowIndex, p.highIndex)
              && p == Pair(Bullish, p.lowIndex, p.highIndex, candles[p.lowIndex].timestamp,
                           candles[p.highIndex].timestamp, candles[p.lowIndex].low, candles[p.highIndex].high)
              && forall low, high :: Rises(candles, low, high) ==> high <= p.highIndex
  {
    forall low, high ensures Rises(candles, low, high) <==> Qualifies(candles, Bullish, high, low) {
      RiseMeans(candles, low, high);
    }
    forall low, high | Rises(candles, low, high) ensures AnchorQualifies(candles, Bullish, high) {
      assert Qualifies(candles, Bullish, high, low);
    }
  }

  /** And in a downtrend the latest bottom that falls from its last top. */
  lemma DowntrendMeans(candles: seq<Candle>, answer: Option<Pair>)
    requires Resolves(candles, Bearish, answer)
    ensures answer == None <==> forall high, low :: !Falls(candles, high, low)
    ensures answer != None ==>
              var p := answer.value;
              && Falls(candles, p.highIndex, p.lowIndex)
              && p == Pair(Bearish, p.lowIndex, p.highIndex, candles[p.lowIndex].timestamp,
                           candles[p.highIndex].timestamp, candles[p.lowIndex].low, candles[p.highIndex].high)
              && forall high, low :: Falls(candles, high, low) ==> low <= p.lowIndex
  {
    forall high, low ensures Falls(candles, high, low) <==> Qualifies(candles, Bearish, low, high) {
      FallMeans(candles, high, low);
    }
    forall high, low | Falls(candles, high, low) ensures AnchorQualifies(candles, Bearish, low) {
      assert Qualifies(candles, Bearish, low, high);
    }
  }
}
