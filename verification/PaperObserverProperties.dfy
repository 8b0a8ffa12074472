/** What the observer's early-exit loop means: the earliest decisive candle of the input; when the
    order of the input matters; the same in a mirrored market; and stable as the window grows. */
module PaperObserverProperties {
  import opened Wrappers
  import opened PaperObserver

  // ---------------------------------------------------------------- sorting

  predicate SameInstants(a: Candle, b: Candle) {
    a.closeTime.at == b.closeTime.at && a.openTime.at == b.openTime.at
  }

  predicate Sorted(s: seq<Candle>) {
    forall i, j :: 0 <= i < j < |s| ==> !Before(s[j], s[i])
  }

  predicate StrictlySorted(s: seq<Candle>) {
    forall i, j :: 0 <= i < j < |s| ==> Before(s[i], s[j])
  }

  predicate Distinct(s: seq<Candle>) {
    forall i, j :: 0 <= i < j < |s| ==> s[i] != s[j]
  }

  predicate SameCandles(a: seq<Candle>, b: seq<Candle>) {
    (forall c :: c in a ==> c in b) && (forall c :: c in b ==> c in a)
  }

  lemma {:induction false} InsertMembers(c: Candle, s: seq<Candle>)
    ensures SameCandles(Insert(c, s), [c] + s)
  {
    if s != [] && !Before(c, s[0]) {
      assert s == [s[0]] + s[1..];
      InsertMembers(c, s[1..]);
    }
  }

  lemma {:induction false} InsertSorts(c: Candle, s: seq<Candle>)
    requires Sorted(s)
    ensures Sorted(Insert(c, s))
  {
    if s != [] && !Before(c, s[0]) {
      InsertSorts(c, s[1..]);
      InsertMembers(c, s[1..]);
      var rest := Insert(c, s[1..]);
      forall i | 0 <= i < |rest| ensures !Before(rest[i], s[0]) {
        assert rest[i] in [c] + s[1..];
        if rest[i] != c { var k :| 0 <= k < |s[1..]| && s[1..][k] == rest[i]; }
      }
    }
  }

  lemma {:induction false} OrderedSorts(s: seq<Candle>)
    ensures Sorted(Ordered(s)) && SameCandles(Ordered(s), s)
  {
    if s != [] {
      var shorter, last := s[..|s| - 1], s[|s| - 1];
      OrderedSorts(shorter);
      InsertSorts(last, Ordered(shorter));
      InsertMembers(last, Ordered(shorter));
      assert s == shorter + [last];
    }
  }

  lemma {:induction false} InsertDistinct(c: Candle, s: seq<Candle>)
    requires Distinct(s) && c !in s
    ensures Distinct(Insert(c, s))
  {
    if s != [] && !Before(c, s[0]) {
      InsertDistinct(c, s[1..]);
      InsertMembers(c, s[1..]);
      assert s[0] !in s[1..];
      assert s[0] !in Insert(c, s[1..]);
    }
  }

  lemma {:induction false} OrderedDistinct(s: seq<Candle>)
    requires Distinct(s)
    ensures Distinct(Ordered(s))
  {
    if s != [] {
      OrderedDistinct(s[..|s| - 1]);
      OrderedSorts(s[..|s| - 1]);
      assert s[|s| - 1] !in s[..|s| - 1];
      InsertDistinct(s[|s| - 1], Ordered(s[..|s| - 1]));
    }
  }

  /** Candles in strict order can be arranged in one way only. */
  lemma {:induction false} OneOrder(a: seq<Candle>, b: seq<Candle>)
    requires StrictlySorted(a) && StrictlySorted(b) && SameCandles(a, b)
    ensures a == b
  {
    if a != [] { SomeCandle(a, b); }
    if b != [] { SomeCandle(b, a); }
    if a != [] {
      assert a[0] in b;
      assert b[0] in a;
      assert a[0] == b[0];
      forall c | c in a[1..] ensures c in b[1..] { assert c in a; Rest(a, c); }
      forall c | c in b[1..] ensures c in a[1..] { assert c in b; Rest(b, c); }
      OneOrder(a[1..], b[1..]);
      assert a == [a[0]] + a[1..] && b == [b[0]] + b[1..];
    }
  }

  lemma SomeCandle(a: seq<Candle>, b: seq<Candle>)
    requires a != [] && forall c :: c in a ==> c in b
    ensures b != []
  {
    assert a[0] in b;
  }

  lemma Rest(s: seq<Candle>, c: Candle)
    requires StrictlySorted(s) && s != [] && c in s[1..]
    ensures c != s[0]
  {
    var k :| 1 <= k < |s| && s[k] == c;
  }

  /** The sort is stable: of two candles with the same key the one given first comes first. */
  ghost predicate Precedes(s: seq<Candle>, a: Candle, b: Candle) {
    exists u, v :: 0 <= u < v < |s| && s[u] == a && s[v] == b
  }

  lemma PrecedesBehind(x: Candle, s: seq<Candle>, a: Candle, b: Candle)
    requires Precedes(s, a, b)
    ensures Precedes([x] + s, a, b)
  {
    var u, v :| 0 <= u < v < |s| && s[u] == a && s[v] == b;
    assert ([x] + s)[u + 1] == a && ([x] + s)[v + 1] == b;
  }

  lemma PrecedesInFront(s: seq<Candle>, b: Candle)
    requires s != [] && b in s[1..]
    ensures Precedes(s, s[0], b)
  {
    var k :| 0 <= k < |s[1..]| && s[1..][k] == b;
    assert s[k + 1] == b;
  }

  lemma {:induction false} InsertKeepsOrder(c: Candle, s: seq<Candle>, a: Candle, b: Candle)
    requires Precedes(s, a, b)
    ensures Precedes(Insert(c, s), a, b)
  {
    if Before(c, s[0]) {
      PrecedesBehind(c, s, a, b);
    } else {
      InsertMembers(c, s[1..]);
      var u, v :| 0 <= u < v < |s| && s[u] == a && s[v] == b;
      if u == 0 {
        assert b == s[1..][v - 1];
        assert Insert(c, s)[1..] == Insert(c, s[1..]);
        PrecedesInFront(Insert(c, s), b);
      } else {
        assert s[1..][u - 1] == a && s[1..][v - 1] == b;
        InsertKeepsOrder(c, s[1..], a, b);
        PrecedesBehind(s[0], Insert(c, s[1..]), a, b);
      }
    }
  }

  lemma {:induction false} InsertGoesBehind(c: Candle, s: seq<Candle>, u: nat)
    requires Sorted(s) && u < |s| && !Before(c, s[u])
    ensures Precedes(Insert(c, s), s[u], c)
  {
    assert u > 0 ==> !Before(s[u], s[0]);
    assert !Before(c, s[0]);
    InsertMembers(c, s[1..]);
    if u == 0 {
      assert Insert(c, s)[1..] == Insert(c, s[1..]);
      PrecedesInFront(Insert(c, s), c);
    } else {
      InsertGoesBehind(c, s[1..], u - 1);
      PrecedesBehind(s[0], Insert(c, s[1..]), s[u], c);
    }
  }

  lemma PrecedesOneWay(s: seq<Candle>, a: Candle, b: Candle)
    requires Distinct(s) && Precedes(s, a, b)
    ensures !Precedes(s, b, a)
  {
    var u, v :| 0 <= u < v < |s| && s[u] == a && s[v] == b;
    forall x, y | 0 <= x < y < |s| ensures !(s[x] == b && s[y] == a) {
      assert s[x] == b ==> x == v;
      assert s[y] == a ==> y == u;
    }
  }

  // ---------------------------------------------------------------- what is collected

  /** All candles are well-formed, close within the window, and have identities of their own. */
  ghost predicate Admissible(candles: seq<Candle>, symbol: string, until: int) {
    && (forall c :: c in candles ==> CandleError(c, symbol).None? && c.closeTime.at <= until)
    && forall i, j :: 0 <= i < j < |candles| ==> IdentityOf(candles[i]) != IdentityOf(candles[j])
  }

  lemma IdentityIsNew(candles: seq<Candle>, c: Candle)
    ensures IdentityOf(c) in Identities(candles)
       <==> exists i :: 0 <= i < |candles| && IdentityOf(candles[i]) == IdentityOf(c)
  {
  }

  lemma AdmissibleFromTheBack(candles: seq<Candle>, symbol: string, until: int)
    requires candles != []
    ensures Admissible(candles, symbol, until)
        <==> Admissible(candles[..|candles| - 1], symbol, until)
             && AdmissionError(candles[|candles| - 1], candles[..|candles| - 1], symbol, until).None?
  {
    var earlier, last := candles[..|candles| - 1], candles[|candles| - 1];
    IdentityIsNew(earlier, last);
    assert forall c :: c in candles <==> c in earlier || c == last by { assert candles == earlier + [last]; }
  }

  /** The candles are accepted exactly when they are admissible, and those that close from the
      publication on are kept. */
  lemma {:induction false} CollectedExactly(candles: seq<Candle>, symbol: string, publishedAt: int, until: int)
    ensures Collected(candles, symbol, publishedAt, until).Ok? <==> Admissible(candles, symbol, until)
    ensures Collected(candles, symbol, publishedAt, until).Ok? ==>
              forall c :: (c in Collected(candles, symbol, publishedAt, until).value
                           <==> c in candles && c.closeTime.at >= publishedAt)
    ensures Collected(candles, symbol, publishedAt, until).Ok? ==>
              Distinct(Collected(candles, symbol, publishedAt, until).value)
  {
    if candles != [] {
      var earlier, last := candles[..|candles| - 1], candles[|candles| - 1];
      CollectedExactly(earlier, symbol, publishedAt, until);
      AdmissibleFromTheBack(candles, symbol, until);
      assert candles == earlier + [last];
      if Collected(candles, symbol, publishedAt, until).Ok? { NewCandle(earlier, last); }
    }
  }

  lemma NewCandle(earlier: seq<Candle>, last: Candle)
    requires IdentityOf(last) !in Identities(earlier)
    ensures last !in earlier
  {
    forall i | 0 <= i < |earlier| ensures earlier[i] != last {
      assert IdentityOf(earlier[i]) in Identities(earlier);
    }
  }

  /** A candle counts if it closes from the publication on. */
  predicate CountsAt(candles: seq<Candle>, k: int, publishedAt: int) {
    0 <= k < |candles| && candles[k].closeTime.at >= publishedAt
  }

  /** No two candles that count share both instants. */
  ghost predicate Apart(candles: seq<Candle>, publishedAt: int) {
    forall i, j :: CountsAt(candles, i, publishedAt) && CountsAt(candles, j, publishedAt) && i != j ==>
      !SameInstants(candles[i], candles[j])
  }

  lemma {:induction false} InsertStrict(c: Candle, s: seq<Candle>)
    requires StrictlySorted(s) && forall i :: 0 <= i < |s| ==> !SameInstants(s[i], c)
    ensures StrictlySorted(Insert(c, s))
  {
    if s != [] && !Before(c, s[0]) {
      InsertStrict(c, s[1..]);
      InsertMembers(c, s[1..]);
      var rest := Insert(c, s[1..]);
      forall i | 0 <= i < |rest| ensures Before(s[0], rest[i]) {
        assert rest[i] in [c] + s[1..];
        if rest[i] != c { var k :| 0 <= k < |s[1..]| && s[1..][k] == rest[i]; }
      }
    }
  }

  lemma {:induction false} ApartIsStrict(candles: seq<Candle>, symbol: string, publishedAt: int, until: int)
    requires Collected(candles, symbol, publishedAt, until).Ok? && Apart(candles, publishedAt)
    ensures StrictlySorted(Ordered(Collected(candles, symbol, publishedAt, until).value))
  {
    if candles != [] {
      var earlier, last := candles[..|candles| - 1], candles[|candles| - 1];
      var kept := Collected(earlier, symbol, publishedAt, until).value;
      assert forall i :: 0 <= i < |earlier| ==> earlier[i] == candles[i];
      assert forall i :: CountsAt(earlier, i, publishedAt) ==> CountsAt(candles, i, publishedAt);
      ApartIsStrict(earlier, symbol, publishedAt, until);
      if last.closeTime.at >= publishedAt {
        CollectedExactly(earlier, symbol, publishedAt, until);
        OrderedSorts(kept);
        assert CountsAt(candles, |candles| - 1, publishedAt);
        forall i | 0 <= i < |Ordered(kept)| ensures !SameInstants(Ordered(kept)[i], last) {
          assert Ordered(kept)[i] in kept;
          assert Ordered(kept)[i] in earlier;
          var k :| 0 <= k < |earlier| && earlier[k] == Ordered(kept)[i];
          assert CountsAt(candles, k, publishedAt);
        }
        InsertStrict(last, Ordered(kept));
        assert (kept + [last])[..|kept|] == kept;
      }
    }
  }

  /** What a successful observation rests on: its kept candles, in order. */
  lemma EvidenceIsOrdered(p: Publication, candles: seq<Candle>, from: int, until: int,
                          cancellation: Option<Cancellation>)
    requires Observed(p, candles, from, until, cancellation).Ok?
    ensures Sorted(Observed(p, candles, from, until, cancellation).value.evidence)
    ensures Distinct(Observed(p, candles, from, until, cancellation).value.evidence)
    ensures forall c :: (c in Observed(p, candles, from, until, cancellation).value.evidence
                         <==> c in candles && c.closeTime.at >= p.publishedAt)
    ensures Observed(p, candles, from, until, cancellation).value.outcome
         == OutcomeOf(Observed(p, candles, from, until, cancellation).value.evidence, p, cancellation, until)
  {
    var kept := Collected(candles, p.symbol, p.publishedAt, until).value;
    CollectedExactly(candles, p.symbol, p.publishedAt, until);
    OrderedSorts(kept);
    OrderedDistinct(kept);
  }

  // ---------------------------------------------------------------- the declarative meaning

  predicate DecidesAt(candles: seq<Candle>, k: int, p: Publication, cancellation: Option<Cancellation>) {
    CountsAt(candles, k, p.publishedAt) && Decision(candles[k], p, cancellation).Some?
  }

  /** Earlier by the instants; between equal instants, earlier in the input. */
  predicate Earlier(candles: seq<Candle>, i: int, j: int)
    requires 0 <= i < |candles| && 0 <= j < |candles|
  {
    Before(candles[i], candles[j]) || (!Before(candles[j], candles[i]) && i < j)
  }

  /** The k-th candle decides something, and is earlier than every other that does. */
  ghost predicate Decisive(candles: seq<Candle>, k: int, p: Publication, cancellation: Option<Cancellation>) {
    && DecidesAt(candles, k, p, cancellation)
    && forall l :: DecidesAt(candles, l, p, cancellation) && l != k ==> Earlier(candles, k, l)
  }

  /** The first candle of a list that decides. */
  function Deciding(ordered: seq<Candle>, p: Publication, cancellation: Option<Cancellation>): Option<Candle> {
    if ordered == [] then None
    else if Decision(ordered[0], p, cancellation).Some? then Some(ordered[0])
    else Deciding(ordered[1..], p, cancellation)
  }

  lemma {:induction false} FirstIsDeciding(ordered: seq<Candle>, p: Publication, cancellation: Option<Cancellation>)
    ensures First(ordered, p, cancellation).Some? == Deciding(ordered, p, cancellation).Some?
    ensures Deciding(ordered, p, cancellation).Some? ==>
              && Deciding(ordered, p, cancellation).value in ordered
              && Decision(Deciding(ordered, p, cancellation).value, p, cancellation) == First(ordered, p, cancellation)
  {
    if ordered != [] { FirstIsDeciding(ordered[1..], p, cancellation); }
  }

  /** An inserted candle takes over exactly when it decides and comes strictly before. */
  lemma {:induction false} InsertDeciding(c: Candle, s: seq<Candle>, p: Publication, cancellation: Option<Cancellation>)
    requires Sorted(s)
    ensures Deciding(Insert(c, s), p, cancellation)
         == if Decision(c, p, cancellation).None? then Deciding(s, p, cancellation)
            else if Deciding(s, p, cancellation).None? then Some(c)
            else if Before(c, Deciding(s, p, cancellation).value) then Some(c)
            else Deciding(s, p, cancellation)
  {
    FirstIsDeciding(s, p, cancellation);
    if s == [] || Before(c, s[0]) {
      assert ([c] + s)[1..] == s;
    } else {
      InsertDeciding(c, s[1..], p, cancellation);
      assert Insert(c, s)[1..] == Insert(c, s[1..]);
    }
  }

  /** The candle that the sorted list decides by is the decisive one of the input. */
  lemma {:induction false} DecisiveIndex(candles: seq<Candle>, p: Publication, until: int,
                                         cancellation: Option<Cancellation>)
    returns (k: int)
    requires Collected(candles, p.symbol, p.publishedAt, until).Ok?
    ensures k == -1 || Decisive(candles, k, p, cancellation)
    ensures k == -1 ==> forall l :: !DecidesAt(candles, l, p, cancellation)
    ensures Deciding(Ordered(Collected(candles, p.symbol, p.publishedAt, until).value), p, cancellation)
         == if k == -1 then None else Some(candles[k])
  {
    k := -1;
    if candles != [] {
      var earlier, last, n := candles[..|candles| - 1], candles[|candles| - 1], |candles| - 1;
      var kept := Collected(earlier, p.symbol, p.publishedAt, until).value;
      k := DecisiveIndex(earlier, p, until, cancellation);
      assert forall l :: l != n ==> DecidesAt(candles, l, p, cancellation) == DecidesAt(earlier, l, p, cancellation);
      if last.closeTime.at >= p.publishedAt {
        OrderedSorts(kept);
        InsertDeciding(last, Ordered(kept), p, cancellation);
        assert (kept + [last])[..|kept|] == kept;
        if Decision(last, p, cancellation).Some? && (k == -1 || Before(last, candles[k])) { k := n; }
      }
    }
  }

  /** The observation is what the decisive candle decides, or the end of the window if no candle
      decides anything. */
  lemma ObservationMeans(p: Publication, candles: seq<Candle>, from: int, until: int,
                         cancellation: Option<Cancellation>)
    requires Observed(p, candles, from, until, cancellation).Ok?
    ensures var outcome := Observed(p, candles, from, until, cancellation).value.outcome;
            || (outcome == Tail(p, cancellation, until) && forall k :: !DecidesAt(candles, k, p, cancellation))
            || exists k :: Decisive(candles, k, p, cancellation) && Decision(candles[k], p, cancellation) == Some(outcome)
  {
    var k := DecisiveIndex(candles, p, until, cancellation);
    FirstIsDeciding(Observed(p, candles, from, until, cancellation).value.evidence, p, cancellation);
    if k != -1 { assert Decisive(candles, k, p, cancellation); }
  }

  /** There is at most one decisive candle, and the outcome is its decision: with the lemma before,
      the outcome is the tail exactly when nothing decides. */
  lemma DecisiveDecides(p: Publication, candles: seq<Candle>, from: int, until: int,
                        cancellation: Option<Cancellation>, k: int)
    requires Observed(p, candles, from, until, cancellation).Ok? && Decisive(candles, k, p, cancellation)
    ensures Decision(candles[k], p, cancellation) == Some(Observed(p, candles, from, until, cancellation).value.outcome)
    ensures forall l :: Decisive(candles, l, p, cancellation) ==> l == k
  {
    var found := DecisiveIndex(candles, p, until, cancellation);
    FirstIsDeciding(Observed(p, candles, from, until, cancellation).value.evidence, p, cancellation);
    assert found == k;
  }

  // ---------------------------------------------------------------- the order of the input

  lemma RepeatsCount(s: seq<Candle>, i: nat, j: nat)
    requires i < j < |s| && s[i] == s[j]
    ensures multiset(s)[s[i]] >= 2
  {
    assert s == s[..j] + s[j..];
    assert s[i] in s[..j] && s[j] in s[j..];
  }

  lemma CountRepeats(s: seq<Candle>, c: Candle)
    requires multiset(s)[c] >= 2
    ensures exists i, j :: 0 <= i < j < |s| && s[i] == s[j] == c
  {
    assert c in s;
    var j :| 0 <= j < |s| && s[j] == c;
    assert s == s[..j] + [s[j]] + s[j + 1..];
    assert c in multiset(s[..j]) || c in multiset(s[j + 1..]);
    if c in s[..j] {
      var i :| 0 <= i < j && s[..j][i] == c;
      assert s[i] == s[j] == c;
    } else {
      var k :| 0 <= k < |s[j + 1..]| && s[j + 1..][k] == c;
      assert s[j] == s[j + 1 + k] == c;
    }
  }

  lemma PermutedMembers(a: seq<Candle>, b: seq<Candle>)
    requires multiset(a) == multiset(b)
    ensures SameCandles(a, b)
  {
    forall c ensures c in a <==> c in b { assert c in multiset(a) <==> c in multiset(b); }
  }

  lemma AdmissiblePermuted(a: seq<Candle>, b: seq<Candle>, symbol: string, until: int)
    requires multiset(a) == multiset(b) && Admissible(a, symbol, until)
    ensures Admissible(b, symbol, until)
  {
    PermutedMembers(a, b);
    forall i, j | 0 <= i < j < |b| ensures IdentityOf(b[i]) != IdentityOf(b[j]) {
      if b[i] == b[j] {
        RepeatsCount(b, i, j);
        CountRepeats(a, b[i]);
        assert false;
      }
      assert b[i] in a && b[j] in a;
      var x, y :| 0 <= x < |a| && 0 <= y < |a| && a[x] == b[i] && a[y] == b[j];
    }
  }

  /** Whether candles are refused never depends on their order. */
  lemma RefusalIgnoresOrder(p: Publication, a: seq<Candle>, b: seq<Candle>, from: int, until: int,
                            cancellation: Option<Cancellation>)
    requires multiset(a) == multiset(b)
    ensures Observed(p, a, from, until, cancellation).Ok? == Observed(p, b, from, until, cancellation).Ok?
  {
    CollectedExactly(a, p.symbol, p.publishedAt, until);
    CollectedExactly(b, p.symbol, p.publishedAt, until);
    if Admissible(a, p.symbol, until) { AdmissiblePermuted(a, b, p.symbol, until); }
    if Admissible(b, p.symbol, until) { AdmissiblePermuted(b, a, p.symbol, until); }
  }

  lemma ApartPermuted(a: seq<Candle>, b: seq<Candle>, symbol: string, publishedAt: int, until: int)
    requires multiset(a) == multiset(b) && Apart(a, publishedAt)
    requires Admissible(b, symbol, until)
    ensures Apart(b, publishedAt)
  {
    PermutedMembers(a, b);
    forall i, j | CountsAt(b, i, publishedAt) && CountsAt(b, j, publishedAt) && i != j
      ensures !SameInstants(b[i], b[j])
    {
      assert b[i] in a && b[j] in a;
      var x, y :| 0 <= x < |a| && 0 <= y < |a| && a[x] == b[i] && a[y] == b[j];
      assert CountsAt(a, x, publishedAt) && CountsAt(a, y, publishedAt) && x != y;
    }
  }

  /** Where no two candles that count share both instants, the same candles in another order give
      the same observation, evidence included. */
  lemma ApartIgnoresOrder(p: Publication, a: seq<Candle>, b: seq<Candle>, from: int, until: int,
                          cancellation: Option<Cancellation>)
    requires Observed(p, a, from, until, cancellation).Ok? && Apart(a, p.publishedAt) && multiset(a) == multiset(b)
    ensures Observed(p, b, from, until, cancellation) == Observed(p, a, from, until, cancellation)
  {
    RefusalIgnoresOrder(p, a, b, from, until, cancellation);
    CollectedExactly(b, p.symbol, p.publishedAt, until);
    ApartPermuted(a, b, p.symbol, p.publishedAt, until);
    ApartIsStrict(a, p.symbol, p.publishedAt, until);
    ApartIsStrict(b, p.symbol, p.publishedAt, until);
    EvidenceIsOrdered(p, a, from, until, cancellation);
    EvidenceIsOrdered(p, b, from, until, cancellation);
    PermutedMembers(a, b);
    OneOrder(Observed(p, a, from, until, cancellation).value.evidence, Observed(p, b, from, until, cancellation).value.evidence);
  }

  function Swapped(s: seq<Candle>, i: nat, j: nat): (swapped: seq<Candle>)
    requires i < j < |s|
    ensures |swapped| == |s| && swapped[i] == s[j] && swapped[j] == s[i]
    ensures forall k :: 0 <= k < |s| && k != i && k != j ==> swapped[k] == s[k]
  {
    s[i := s[j]][j := s[i]]
  }

  lemma SwappedPermutes(s: seq<Candle>, i: nat, j: nat)
    requires i < j < |s|
    ensures multiset(Swapped(s, i, j)) == multiset(s)
  {
    var t := Swapped(s, i, j);
    assert s == s[..i] + [s[i]] + s[i + 1..j] + [s[j]] + s[j + 1..];
    assert t == s[..i] + [s[j]] + s[i + 1..j] + [s[i]] + s[j + 1..];
  }

  /** Two candles of the same instants stand in the evidence as they stood in the input. */
  lemma {:induction false} TiesKeepOrder(candles: seq<Candle>, symbol: string, publishedAt: int, until: int,
                                         i: int, j: int)
    requires Collected(candles, symbol, publishedAt, until).Ok?
    requires CountsAt(candles, i, publishedAt) && CountsAt(candles, j, publishedAt) && i < j
    requires SameInstants(candles[i], candles[j])
    ensures Precedes(Ordered(Collected(candles, symbol, publishedAt, until).value), candles[i], candles[j])
  {
    var earlier, last := candles[..|candles| - 1], candles[|candles| - 1];
    var kept := Collected(earlier, symbol, publishedAt, until).value;
    assert (kept + [last])[..|kept|] == kept;
    assert forall k :: 0 <= k < |earlier| ==> earlier[k] == candles[k];
    if j < |candles| - 1 {
      TiesKeepOrder(earlier, symbol, publishedAt, until, i, j);
      InsertKeepsOrder(last, Ordered(kept), candles[i], candles[j]);
    } else {
      CollectedExactly(earlier, symbol, publishedAt, until);
      OrderedSorts(kept);
      assert earlier[i] in kept;
      assert earlier[i] in Ordered(kept);
      var u :| 0 <= u < |Ordered(kept)| && Ordered(kept)[u] == earlier[i];
      InsertGoesBehind(last, Ordered(kept), u);
    }
  }

  /** Two such candles, exchanged in the input, are exchanged in the evidence. */
  lemma TiesShowOrder(p: Publication, a: seq<Candle>, from: int, until: int, cancellation: Option<Cancellation>,
                      i: nat, j: nat)
    requires Observed(p, a, from, until, cancellation).Ok?
    requires CountsAt(a, i, p.publishedAt) && CountsAt(a, j, p.publishedAt) && i < j && SameInstants(a[i], a[j])
    ensures multiset(Swapped(a, i, j)) == multiset(a)
    ensures Observed(p, Swapped(a, i, j), from, until, cancellation) != Observed(p, a, from, until, cancellation)
  {
    var b := Swapped(a, i, j);
    SwappedPermutes(a, i, j);
    RefusalIgnoresOrder(p, a, b, from, until, cancellation);
    TiesKeepOrder(a, p.symbol, p.publishedAt, until, i, j);
    TiesKeepOrder(b, p.symbol, p.publishedAt, until, i, j);
    EvidenceIsOrdered(p, a, from, until, cancellation);
    PrecedesOneWay(Observed(p, a, from, until, cancellation).value.evidence, a[i], a[j]);
  }

  /** The observation is the same for every order of its candles if and only if no two of them
      that count share both instants, in different spellings. */
  lemma OrderOfInputIsIrrelevant(p: Publication, a: seq<Candle>, from: int, until: int,
                                 cancellation: Option<Cancellation>)
    requires Observed(p, a, from, until, cancellation).Ok?
    ensures Apart(a, p.publishedAt)
       <==> forall b :: multiset(b) == multiset(a) ==>
              Observed(p, b, from, until, cancellation) == Observed(p, a, from, until, cancellation)
  {
    if Apart(a, p.publishedAt) {
      forall b | multiset(b) == multiset(a)
        ensures Observed(p, b, from, until, cancellation) == Observed(p, a, from, until, cancellation)
      {
        ApartIgnoresOrder(p, a, b, from, until, cancellation);
      }
    } else {
      var i, j :| CountsAt(a, i, p.publishedAt) && CountsAt(a, j, p.publishedAt) && i != j && SameInstants(a[i], a[j]);
      if i < j { TiesShowOrder(p, a, from, until, cancellation, i, j); }
      else { TiesShowOrder(p, a, from, until, cancellation, j, i); }
    }
  }

  /** Deciding candles of the same instants decide alike, unless another decides before them. */
  ghost predicate TiesAgree(candles: seq<Candle>, p: Publication, cancellation: Option<Cancellation>) {
    forall i, j ::
      && DecidesAt(candles, i, p, cancellation) && DecidesAt(candles, j, p, cancellation)
      && SameInstants(candles[i], candles[j])
      && (forall l :: DecidesAt(candles, l, p, cancellation) ==> !Before(candles[l], candles[i])) ==>
        Decision(candles[i], p, cancellation) == Decision(candles[j], p, cancellation)
  }

  lemma DecidesIn(a: seq<Candle>, b: seq<Candle>, k: int, p: Publication, cancellation: Option<Cancellation>)
    returns (m: int)
    requires SameCandles(a, b) && DecidesAt(a, k, p, cancellation)
    ensures DecidesAt(b, m, p, cancellation) && b[m] == a[k]
  {
    assert a[k] in b;
    m :| 0 <= m < |b| && b[m] == a[k];
  }

  lemma TiedDecisions(a: seq<Candle>, k: int, b: seq<Candle>, m: int, p: Publication,
                      cancellation: Option<Cancellation>)
    requires SameCandles(a, b) && TiesAgree(a, p, cancellation)
    requires Decisive(a, k, p, cancellation) && Decisive(b, m, p, cancellation)
    ensures Decision(a[k], p, cancellation) == Decision(b[m], p, cancellation)
  {
    var x := DecidesIn(a, b, k, p, cancellation);
    var y := DecidesIn(b, a, m, p, cancellation);
    assert SameInstants(a[k], a[y]);
  }

  lemma TiedOutcome(p: Publication, a: seq<Candle>, b: seq<Candle>, from: int, until: int,
                    cancellation: Option<Cancellation>)
    requires Observed(p, a, from, until, cancellation).Ok? && multiset(a) == multiset(b)
    requires TiesAgree(a, p, cancellation)
    ensures Observed(p, b, from, until, cancellation).Ok?
    ensures Observed(p, b, from, until, cancellation).value.outcome == Observed(p, a, from, until, cancellation).value.outcome
  {
    RefusalIgnoresOrder(p, a, b, from, until, cancellation);
    PermutedMembers(a, b);
    var k := DecisiveIndex(a, p, until, cancellation);
    var m := DecisiveIndex(b, p, until, cancellation);
    FirstIsDeciding(Observed(p, a, from, until, cancellation).value.evidence, p, cancellation);
    FirstIsDeciding(Observed(p, b, from, until, cancellation).value.evidence, p, cancellation);
    if k != -1 { var x := DecidesIn(a, b, k, p, cancellation); }
    if m != -1 {
      var y := DecidesIn(b, a, m, p, cancellation);
      TiedDecisions(a, k, b, m, p, cancellation);
    }
  }

  lemma DisagreeingTies(p: Publication, a: seq<Candle>, from: int, until: int, cancellation: Option<Cancellation>,
                        k: nat, j: nat)
    requires Observed(p, a, from, until, cancellation).Ok? && Decisive(a, k, p, cancellation)
    requires DecidesAt(a, j, p, cancellation) && SameInstants(a[k], a[j])
    requires Decision(a[k], p, cancellation) != Decision(a[j], p, cancellation)
    ensures k < j && multiset(Swapped(a, k, j)) == multiset(a)
    ensures Observed(p, Swapped(a, k, j), from, until, cancellation).Ok?
    ensures Observed(p, Swapped(a, k, j), from, until, cancellation).value.outcome
         != Observed(p, a, from, until, cancellation).value.outcome
  {
    var b := Swapped(a, k, j);
    SwappedPermutes(a, k, j);
    RefusalIgnoresOrder(p, a, b, from, until, cancellation);
    forall l | DecidesAt(b, l, p, cancellation) && l != k ensures Earlier(b, k, l) {
      if l != j { assert DecidesAt(a, l, p, cancellation) && Earlier(a, k, l); }
    }
    DecisiveDecides(p, a, from, until, cancellation, k);
    DecisiveDecides(p, b, from, until, cancellation, k);
  }

  /** The outcome alone is the same for every order of the candles if and only if the earliest
      deciding candles, where several share both instants, decide alike. */
  lemma OutcomeIgnoresOrderExactlyWhen(p: Publication, a: seq<Candle>, from: int, until: int,
                                       cancellation: Option<Cancellation>)
    requires Observed(p, a, from, until, cancellation).Ok?
    ensures TiesAgree(a, p, cancellation)
       <==> forall b :: multiset(b) == multiset(a) ==>
              && Observed(p, b, from, until, cancellation).Ok?
              && Observed(p, b, from, until, cancellation).value.outcome
                 == Observed(p, a, from, until, cancellation).value.outcome
  {
    if TiesAgree(a, p, cancellation) {
      forall b | multiset(b) == multiset(a)
        ensures Observed(p, b, from, until, cancellation).Ok?
        ensures Observed(p, b, from, until, cancellation).value.outcome
             == Observed(p, a, from, until, cancellation).value.outcome
      {
        TiedOutcome(p, a, b, from, until, cancellation);
      }
    } else {
      var i, j :|
        && DecidesAt(a, i, p, cancellation) && DecidesAt(a, j, p, cancellation) && SameInstants(a[i], a[j])
        && (forall l :: DecidesAt(a, l, p, cancellation) ==> !Before(a[l], a[i]))
        && Decision(a[i], p, cancellation) != Decision(a[j], p, cancellation);
      var k := DecisiveIndex(a, p, until, cancellation);
      assert SameInstants(a[k], a[i]) && SameInstants(a[k], a[j]);
      if Decision(a[k], p, cancellation) != Decision(a[i], p, cancellation) {
        DisagreeingTies(p, a, from, until, cancellation, k, i);
      } else {
        DisagreeingTies(p, a, from, until, cancellation, k, j);
      }
    }
  }

  /** Order does matter: of two candles over the same minute, spelled differently, the one given
      first decides between entry touched and target reached. */
  lemma SpellingsCanDecide(p: Publication, entry: Candle, target: Candle, from: int, until: int)
    requires p == Publication("S", Long, 0, 90, 10.0, 10.0, 5.0, 20.0, 20.0) && from == 0 && until == 90
    requires entry == Candle("S", Stamp(0, 0), Stamp(60, 0), 10.0, 10.0, 10.0, 10.0, true)
    requires target == Candle("S", Stamp(0, 1), Stamp(60, 1), 20.0, 20.0, 20.0, 20.0, true)
    ensures Observed(p, [entry, target], from, until, None).Ok? && Observed(p, [target, entry], from, until, None).Ok?
    ensures Observed(p, [entry, target], from, until, None).value.outcome.state == EntryZoneTouched
    ensures Observed(p, [target, entry], from, until, None).value.outcome.state == TargetReachedBeforeEntry
  {
    FirstOfTwoDecides(p, entry, target, from, until);
    FirstOfTwoDecides(p, target, entry, from, until);
  }

  lemma FirstOfTwoDecides(p: Publication, a: Candle, b: Candle, from: int, until: int)
    requires SetupError(p, from, until, None).None? && p.publishedAt <= a.closeTime.at <= until && SameInstants(a, b)
    requires CandleError(a, p.symbol).None? && CandleError(b, p.symbol).None? && IdentityOf(a) != IdentityOf(b)
    requires Decision(a, p, None).Some?
    ensures Observed(p, [a, b], from, until, None).Ok?
    ensures Some(Observed(p, [a, b], from, until, None).value.outcome) == Decision(a, p, None)
  {
    CollectedExactly([a, b], p.symbol, p.publishedAt, until);
    DecisiveDecides(p, [a, b], from, until, None, 0);
  }

  // ---------------------------------------------------------------- growing windows

  lemma {:induction false} FirstOfBoth(a: seq<Candle>, b: seq<Candle>, p: Publication,
                                       cancellation: Option<Cancellation>)
    ensures First(a + b, p, cancellation)
         == if First(a, p, cancellation).Some? then First(a, p, cancellation) else First(b, p, cancellation)
  {
    if a == [] {
      assert a + b == b;
    } else {
      FirstOfBoth(a[1..], b, p, cancellation);
      assert (a + b)[1..] == a[1..] + b;
    }
  }

  predicate IsOpen(outcome: Outcome) { outcome.state == Observing || outcome.state == ExpiredUntouched }

  lemma {:induction false} InsertSkips(c: Candle, a: seq<Candle>, b: seq<Candle>)
    requires forall i :: 0 <= i < |a| ==> !Before(c, a[i])
    ensures Insert(c, a + b) == a + Insert(c, b)
  {
    if a == [] {
      assert a + b == b;
    } else {
      InsertSkips(c, a[1..], b);
      assert (a + b)[1..] == a[1..] + b;
    }
  }

  lemma {:induction false} OrderedOfBoth(a: seq<Candle>, b: seq<Candle>)
    requires forall i, j :: 0 <= i < |a| && 0 <= j < |b| ==> Before(a[i], b[j])
    ensures Ordered(a + b) == Ordered(a) + Ordered(b)
  {
    if b == [] {
      assert a + b == a;
    } else {
      var shorter, last := b[..|b| - 1], b[|b| - 1];
      OrderedOfBoth(a, shorter);
      assert (a + b)[..|a + b| - 1] == a + shorter;
      OrderedSorts(a);
      forall i | 0 <= i < |Ordered(a)| ensures !Before(last, Ordered(a)[i]) {
        assert Ordered(a)[i] in a;
        var k :| 0 <= k < |a| && a[k] == Ordered(a)[i];
      }
      InsertSkips(last, Ordered(a), Ordered(shorter));
    }
  }

  lemma {:induction false} CollectedOfBoth(a: seq<Candle>, b: seq<Candle>, symbol: string, publishedAt: int, until: int)
    requires Collected(a + b, symbol, publishedAt, until).Ok?
    ensures Collected(a, symbol, publishedAt, until).Ok? && Collected(b, symbol, publishedAt, until).Ok?
    ensures Collected(a + b, symbol, publishedAt, until).value
         == Collected(a, symbol, publishedAt, until).value + Collected(b, symbol, publishedAt, until).value
  {
    if b == [] {
      assert a + b == a;
    } else {
      var shorter, last := b[..|b| - 1], b[|b| - 1];
      assert (a + b)[..|a + b| - 1] == a + shorter;
      CollectedOfBoth(a, shorter, symbol, publishedAt, until);
      IdentityIsNew(shorter, last);
      forall i | 0 <= i < |shorter| ensures IdentityOf(shorter[i]) != IdentityOf(last) {
        assert (a + shorter)[|a| + i] == shorter[i];
        assert IdentityOf((a + shorter)[|a| + i]) in Identities(a + shorter);
      }
    }
  }

  /** The end of the window decides only whether a candle is refused. */
  lemma {:induction false} CollectedUntil(candles: seq<Candle>, symbol: string, publishedAt: int, until: int,
                                          later: int)
    requires Collected(candles, symbol, publishedAt, until).Ok? && Collected(candles, symbol, publishedAt, later).Ok?
    ensures Collected(candles, symbol, publishedAt, until) == Collected(candles, symbol, publishedAt, later)
  {
    if candles != [] { CollectedUntil(candles[..|candles| - 1], symbol, publishedAt, until, later); }
  }

  lemma ExtendedEvidence(p: Publication, seen: seq<Candle>, added: seq<Candle>, from: int, until: int, later: int,
                         cancellation: Option<Cancellation>)
    requires Observed(p, seen, from, until, cancellation).Ok?
    requires Observed(p, seen + added, from, later, cancellation).Ok?
    requires until <= later && forall c :: c in added ==> c.closeTime.at > until
    ensures Observed(p, added, from, later, cancellation).Ok?
    ensures Observed(p, seen + added, from, later, cancellation).value.evidence
         == Observed(p, seen, from, until, cancellation).value.evidence
            + Observed(p, added, from, later, cancellation).value.evidence
  {
    CollectedOfBoth(seen, added, p.symbol, p.publishedAt, later);
    CollectedUntil(seen, p.symbol, p.publishedAt, until, later);
    CollectedExactly(seen, p.symbol, p.publishedAt, until);
    CollectedExactly(added, p.symbol, p.publishedAt, later);
    var first := Collected(seen, p.symbol, p.publishedAt, until).value;
    var second := Collected(added, p.symbol, p.publishedAt, later).value;
    forall i, j | 0 <= i < |first| && 0 <= j < |second| ensures Before(first[i], second[j]) {
      assert first[i] in first && second[j] in second;
    }
    OrderedOfBoth(first, second);
  }

  /** Extending the window with candles that close after it: a decided outcome stays what it was,
      and an open one becomes whatever the new candles alone would have made of it. */
  lemma GrowingWindow(p: Publication, seen: seq<Candle>, added: seq<Candle>, from: int, until: int, later: int,
                      cancellation: Option<Cancellation>)
    requires Observed(p, seen, from, until, cancellation).Ok?
    requires Observed(p, seen + added, from, later, cancellation).Ok?
    requires until <= later && forall c :: c in added ==> c.closeTime.at > until
    ensures Observed(p, added, from, later, cancellation).Ok?
    ensures Observed(p, seen + added, from, later, cancellation).value.outcome
         == if IsOpen(Observed(p, seen, from, until, cancellation).value.outcome)
            then Observed(p, added, from, later, cancellation).value.outcome
            else Observed(p, seen, from, until, cancellation).value.outcome
  {
    ExtendedEvidence(p, seen, added, from, until, later, cancellation);
    EvidenceIsOrdered(p, added, from, later, cancellation);
    var first := Observed(p, seen, from, until, cancellation).value.evidence;
    var second := Observed(p, added, from, later, cancellation).value.evidence;
    FirstOfBoth(first, second, p, cancellation);
    FirstIsDecided(first, p, cancellation);
    if second != [] { assert second[0] in added; }
  }

  lemma {:induction false} FirstIsDecided(candles: seq<Candle>, p: Publication, cancellation: Option<Cancellation>)
    ensures First(candles, p, cancellation).Some? ==> !IsOpen(First(candles, p, cancellation).value)
  {
    if candles != [] { FirstIsDecided(candles[1..], p, cancellation); }
  }

  // ---------------------------------------------------------------- the mirrored market

  function MirrorSide(side: Side): Side { match side case Long => Short case Short => Long case OtherSide => OtherSide }

  function MirrorCandle(c: Candle): Candle { c.(open := -c.open, high := -c.low, low := -c.high, close := -c.close) }

  function MirrorPublication(p: Publication): Publication {
    p.(side := MirrorSide(p.side), entryMin := -p.entryMax, entryMax := -p.entryMin, stopLoss := -p.stopLoss,
       tp1 := -p.tp1, tp2 := -p.tp2)
  }

  function MirrorOutcome(o: Outcome): Outcome {
    o.(touchCandle := if o.touchCandle.Some? then Some(MirrorCandle(o.touchCandle.value)) else None)
  }

  function MirrorAll(candles: seq<Candle>): (mirrored: seq<Candle>)
    ensures |mirrored| == |candles| && forall i :: 0 <= i < |mirrored| ==> mirrored[i] == MirrorCandle(candles[i])
  {
    if candles == [] then [] else MirrorAll(candles[..|candles| - 1]) + [MirrorCandle(candles[|candles| - 1])]
  }

  lemma MirroredCons(c: Candle, s: seq<Candle>)
    ensures MirrorAll([c] + s) == [MirrorCandle(c)] + MirrorAll(s)
  {
  }

  lemma MirroredRest(s: seq<Candle>)
    requires s != []
    ensures MirrorAll(s)[1..] == MirrorAll(s[1..])
  {
  }

  lemma {:induction false} InsertMirrored(c: Candle, s: seq<Candle>)
    ensures Insert(MirrorCandle(c), MirrorAll(s)) == MirrorAll(Insert(c, s))
  {
    if s == [] || Before(c, s[0]) {
      MirroredCons(c, s);
    } else {
      InsertMirrored(c, s[1..]);
      MirroredRest(s);
      MirroredCons(s[0], Insert(c, s[1..]));
    }
  }

  lemma {:induction false} OrderedMirrored(s: seq<Candle>)
    ensures Ordered(MirrorAll(s)) == MirrorAll(Ordered(s))
  {
    if s != [] {
      OrderedMirrored(s[..|s| - 1]);
      assert MirrorAll(s)[..|s| - 1] == MirrorAll(s[..|s| - 1]);
      InsertMirrored(s[|s| - 1], Ordered(s[..|s| - 1]));
    }
  }

  lemma AdmissionMirrored(c: Candle, earlier: seq<Candle>, symbol: string, until: int)
    ensures AdmissionError(MirrorCandle(c), MirrorAll(earlier), symbol, until).None?
         == AdmissionError(c, earlier, symbol, until).None?
  {
    assert Identities(MirrorAll(earlier)) == Identities(earlier);
  }

  lemma {:induction false} CollectedMirrored(candles: seq<Candle>, symbol: string, publishedAt: int, until: int)
    ensures Collected(MirrorAll(candles), symbol, publishedAt, until).Ok?
         == Collected(candles, symbol, publishedAt, until).Ok?
    ensures Collected(candles, symbol, publishedAt, until).Ok? ==>
              Collected(MirrorAll(candles), symbol, publishedAt, until).value
              == MirrorAll(Collected(candles, symbol, publishedAt, until).value)
  {
    if candles != [] {
      var earlier, last := candles[..|candles| - 1], candles[|candles| - 1];
      CollectedMirrored(earlier, symbol, publishedAt, until);
      assert MirrorAll(candles)[..|candles| - 1] == MirrorAll(earlier);
      AdmissionMirrored(last, earlier, symbol, until);
      if Collected(earlier, symbol, publishedAt, until).Ok? {
        var kept := Collected(earlier, symbol, publishedAt, until).value;
        assert MirrorAll(kept + [last]) == MirrorAll(kept) + [MirrorCandle(last)];
      }
    }
  }

  lemma DecisionMirrored(c: Candle, p: Publication, cancellation: Option<Cancellation>)
    requires p.side != OtherSide
    ensures Decision(MirrorCandle(c), MirrorPublication(p), cancellation)
         == match Decision(c, p, cancellation) case None => None case Some(o) => Some(MirrorOutcome(o))
  {
    assert TouchesEntry(MirrorCandle(c), MirrorPublication(p)) == TouchesEntry(c, p);
    assert TouchesTarget(MirrorCandle(c), MirrorPublication(p)) == TouchesTarget(c, p);
    assert TouchesInvalidation(MirrorCandle(c), MirrorPublication(p)) == TouchesInvalidation(c, p);
  }

  lemma {:induction false} FirstMirrored(candles: seq<Candle>, p: Publication, cancellation: Option<Cancellation>)
    requires p.side != OtherSide
    ensures First(MirrorAll(candles), MirrorPublication(p), cancellation)
         == match First(candles, p, cancellation) case None => None case Some(o) => Some(MirrorOutcome(o))
  {
    if candles != [] {
      DecisionMirrored(candles[0], p, cancellation);
      FirstMirrored(candles[1..], p, cancellation);
      assert MirrorAll(candles)[1..] == MirrorAll(candles[1..]);
    }
  }

  lemma SetupMirrored(p: Publication, from: int, until: int, cancellation: Option<Cancellation>)
    ensures SetupError(MirrorPublication(p), from, until, cancellation).None?
         == SetupError(p, from, until, cancellation).None?
  {
  }

  /** Negating every price and exchanging long and short mirrors the observation. */
  lemma MirroredMarket(p: Publication, candles: seq<Candle>, from: int, until: int, cancellation: Option<Cancellation>)
    ensures Observed(MirrorPublication(p), MirrorAll(candles), from, until, cancellation).Ok?
         == Observed(p, candles, from, until, cancellation).Ok?
    ensures Observed(p, candles, from, until, cancellation).Ok? ==>
              Observed(MirrorPublication(p), MirrorAll(candles), from, until, cancellation).value
              == Observation(MirrorOutcome(Observed(p, candles, from, until, cancellation).value.outcome),
                             MirrorAll(Observed(p, candles, from, until, cancellation).value.evidence))
  {
    SetupMirrored(p, from, until, cancellation);
    CollectedMirrored(candles, p.symbol, p.publishedAt, until);
    if Observed(p, candles, from, until, cancellation).Ok? {
      var kept := Collected(candles, p.symbol, p.publishedAt, until).value;
      OrderedMirrored(kept);
      FirstMirrored(Ordered(kept), p, cancellation);
    }
  }
}
