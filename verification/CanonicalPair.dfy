/** Canonical trading-pair identity: the authority used by the ledger, and the
    second canonicaliser used by the offline migration.

    Strings are ASCII.  `Normalized` and `Migrated` are the meanings of the two
    routines; the methods rebind a market string step by step as the routines do. */
module CanonicalPair {
  import opened Wrappers

  const QUOTES: seq<string> := ["USDT", "USDC", "BUSD", "USD", "BTC", "ETH"]
  const MIGRATION_QUOTES: seq<string> := ["USDT"]

  // ---------------------------------------------------------------- characters

  predicate IsSpace(c: char) {
    '\t' <= c <= '\r' || '\U{1c}' <= c <= ' '
  }

  predicate IsAssetChar(c: char) {
    'A' <= c <= 'Z' || '0' <= c <= '9'
  }

  function UpperChar(c: char): char {
    if 'a' <= c <= 'z' then (c as int - 32) as char else c
  }

  /** Every whitespace character removed, every letter in upper case. */
  function Compact(s: string): string {
    if s == "" then ""
    else if IsSpace(s[0]) then Compact(s[1..])
    else [UpperChar(s[0])] + Compact(s[1..])
  }

  predicate IsAsset(s: string) {
    2 <= |s| <= 20 && forall i :: 0 <= i < |s| ==> IsAssetChar(s[i])
  }

  predicate IsPair(base: string, quote: string) {
    IsAsset(base) && IsAsset(quote) && base != quote
  }

  /** Position of the first `c`, or the length of `s`. */
  function IndexOf(s: string, c: char): (i: nat)
    ensures i <= |s|
    ensures i < |s| ==> s[i] == c
    ensures forall j :: 0 <= j < i ==> s[j] != c
  {
    if s == "" || s[0] == c then 0 else 1 + IndexOf(s[1..], c)
  }

  predicate EndsWith(s: string, suffix: string) {
    |suffix| <= |s| && s[|s| - |suffix|..] == suffix
  }

  // ---------------------------------------------------------------- meanings

  predicate SplitsOff(market: string, quote: string) {
    EndsWith(market, quote) && |quote| < |market|
  }

  /** The market with a slash before the first quote of `quotes` that ends it. */
  function Slashed(market: string, quotes: seq<string>): string {
    if quotes == [] then market
    else if SplitsOff(market, quotes[0]) then market[..|market| - |quotes[0]|] + "/" + quotes[0]
    else Slashed(market, quotes[1..])
  }

  /** The two parts of a market with exactly one slash. */
  function Parts(market: string): Option<(string, string)> {
    var i := IndexOf(market, '/');
    if i == |market| || '/' in market[i + 1..] then None
    else Some((market[..i], market[i + 1..]))
  }

  function Normalized(value: string): Option<string> {
    Read(Compact(value), QUOTES)
  }

  function Migrated(value: string): Option<string> {
    ReadForMigration(Compact(value), MIGRATION_QUOTES)
  }

  function Read(compact: string, quotes: seq<string>): Option<string> {
    if compact == "" then None else ReadMarket(MarketOf(compact), SettlementOf(compact), quotes)
  }

  function ReadForMigration(compact: string, quotes: seq<string>): Option<string> {
    ReadMarketForMigration(MarketOf(compact), SettlementOf(compact), quotes)
  }

  /** The text before the first colon. */
  function MarketOf(compact: string): string {
    compact[..IndexOf(compact, ':')]
  }

  /** The text after the first colon, when there is one. */
  function SettlementOf(compact: string): Option<string> {
    var i := IndexOf(compact, ':');
    if i < |compact| then Some(compact[i + 1..]) else None
  }

  function ReadMarket(market: string, settlement: Option<string>, quotes: seq<string>): Option<string> {
    if settlement.Some? && (settlement.value == "" || ':' in settlement.value) then None
    else
      match PartsOf(market, quotes)
      case None => None
      case Some((base, quote)) =>
        if !IsPair(base, quote) then None
        else if settlement.Some? && settlement.value != quote then None
        else Some(base + "/" + quote)
  }

  function ReadMarketForMigration(market: string, settlement: Option<string>, quotes: seq<string>): Option<string> {
    if settlement.Some? && !EndsWith(market, "/" + settlement.value) then None
    else
      match PartsOf(market, quotes)
      case None => None
      case Some((base, quote)) =>
        if IsAsset(base) && IsAsset(quote) then Some(base + "/" + quote) else None
  }

  function PartsOf(market: string, quotes: seq<string>): Option<(string, string)> {
    Parts(if '/' in market then market else Slashed(market, quotes))
  }

  // ---------------------------------------------------------------- routines

  method NormalizePair(value: string) returns (pair: Option<string>)
    ensures pair == Normalized(value)
  {
    var compact := Compact(value);
    if compact == "" { return None; }
    var at := IndexOf(compact, ':');
    var separator := at < |compact|;
    var market := compact[..at];
    var settlement := if separator then compact[at + 1..] else "";
    if separator && (settlement == "" || ':' in settlement) { return None; }
    if '/' !in market {
      market := SplitConcatenation(market, QUOTES);
    }
    var parts := Parts(market);
    if parts.None? { return None; }
    var (base, quote) := parts.value;
    if !IsAsset(base) || !IsAsset(quote) { return None; }
    if base == quote || (separator && settlement != quote) { return None; }
    return Some(base + "/" + quote);
  }

  /** The loop over the listed quotes: rebinds the market at the first that fits. */
  method SplitConcatenation(whole: string, quotes: seq<string>) returns (market: string)
    ensures market == Slashed(whole, quotes)
  {
    market := whole;
    var k := 0;
    while k < |quotes|
      invariant 0 <= k <= |quotes|
      invariant market == whole
      invariant Slashed(whole, quotes) == Slashed(whole, quotes[k..])
    {
      var quote := quotes[k];
      if SplitsOff(market, quote) {
        market := market[..|market| - |quote|] + "/" + quote;
        break;
      }
      k := k + 1;
    }
  }

  method CanonicalPairForMigration(value: string) returns (pair: Option<string>)
    ensures pair == Migrated(value)
  {
    var compact := Compact(value);
    ghost var market := compact[..IndexOf(compact, ':')];
    if ':' in compact {
      var at := IndexOf(compact, ':');
      var settlement := compact[at + 1..];
      compact := compact[..at];
      if !EndsWith(compact, "/" + settlement) { return None; }
    }
    assert compact == market;
    if '/' !in compact && SplitsOff(compact, "USDT") {
      compact := compact[..|compact| - 4] + "/" + "USDT";
    }
    assert '/' !in market ==> compact == Slashed(market, MIGRATION_QUOTES) by { OneQuote(market, MIGRATION_QUOTES); }
    var parts := Parts(compact);
    if parts.None? { return None; }
    if !IsAsset(parts.value.0) || !IsAsset(parts.value.1) { return None; }
    return Some(parts.value.0 + "/" + parts.value.1);
  }

  lemma OneQuote(market: string, quotes: seq<string>)
    requires |quotes| == 1
    ensures Slashed(market, quotes)
         == if SplitsOff(market, quotes[0]) then market[..|market| - |quotes[0]|] + "/" + quotes[0] else market
  {
    assert Slashed(market, quotes[1..]) == market;
  }

  // ---------------------------------------------------------------- spellings

  /** The first listed quote that ends `base + quote` is `quote` itself. */
  ghost predicate Claims(base: string, quote: string, quotes: seq<string>) {
    exists k :: 0 <= k < |quotes| && quotes[k] == quote
             && forall j :: 0 <= j < k ==> !SplitsOff(base + quote, quotes[j])
  }

  ghost predicate SpellsMarket(market: string, base: string, quote: string, quotes: seq<string>) {
    market == base + "/" + quote || (market == base + quote && Claims(base, quote, quotes))
  }

  /** The spellings of a pair after compaction: slashed or concatenated, settled or not. */
  ghost predicate Spells(compact: string, base: string, quote: string, quotes: seq<string>) {
    exists market :: SpellsMarket(market, base, quote, quotes)
                  && (compact == market || compact == market + ":" + quote)
  }

  lemma {:induction false} CompactFixes(s: string)
    requires forall i :: 0 <= i < |s| ==> !IsSpace(s[i]) && UpperChar(s[i]) == s[i]
    ensures Compact(s) == s
  {
    if s != "" {
      CompactFixes(s[1..]);
      assert s == [s[0]] + s[1..];
    }
  }

  lemma {:induction false} IndexOfFirst(s: string, c: char, i: nat)
    requires i < |s| && s[i] == c && forall j :: 0 <= j < i ==> s[j] != c
    ensures IndexOf(s, c) == i
  {
    if i > 0 { IndexOfFirst(s[1..], c, i - 1); }
  }

  lemma PartsOfPair(base: string, quote: string)
    requires IsAsset(base) && IsAsset(quote)
    ensures '/' in base + "/" + quote
    ensures Parts(base + "/" + quote) == Some((base, quote))
  {
    var market := base + "/" + quote;
    assert market[|base|] == '/';
    IndexOfFirst(market, '/', |base|);
    assert market[..|base|] == base && market[|base| + 1..] == quote;
  }

  lemma PartsJoin(market: string, base: string, quote: string)
    requires Parts(market) == Some((base, quote))
    ensures market == base + "/" + quote && '/' !in base && '/' !in quote
  {
    var at := IndexOf(market, '/');
    assert market == market[..at] + [market[at]] + market[at + 1..];
  }

  lemma PairTextInjective(base: string, quote: string, base': string, quote': string)
    requires IsAsset(base) && IsAsset(quote) && IsAsset(base') && IsAsset(quote')
    requires base + "/" + quote == base' + "/" + quote'
    ensures base == base' && quote == quote'
  {
    PartsOfPair(base, quote);
    PartsOfPair(base', quote');
  }

  lemma {:induction false} SlashedAtFirst(market: string, quotes: seq<string>, k: nat)
    requires k < |quotes| && SplitsOff(market, quotes[k])
    requires forall j :: 0 <= j < k ==> !SplitsOff(market, quotes[j])
    ensures Slashed(market, quotes) == market[..|market| - |quotes[k]|] + "/" + quotes[k]
  {
    if k > 0 { SlashedAtFirst(market, quotes[1..], k - 1); }
  }

  /** Where the slash went: at the first listed quote that ends the market, or nowhere. */
  lemma {:induction false} SlashedWhere(market: string, quotes: seq<string>) returns (k: nat)
    ensures k <= |quotes| && forall j :: 0 <= j < k ==> !SplitsOff(market, quotes[j])
    ensures k == |quotes| ==> Slashed(market, quotes) == market
    ensures k < |quotes| ==> SplitsOff(market, quotes[k])
    ensures k < |quotes| ==> Slashed(market, quotes) == market[..|market| - |quotes[k]|] + "/" + quotes[k]
  {
    k := 0;
    if quotes != [] && !SplitsOff(market, quotes[0]) {
      k := SlashedWhere(market, quotes[1..]);
      k := k + 1;
    }
  }

  predicate AllAssets(quotes: seq<string>) {
    forall k :: 0 <= k < |quotes| ==> IsAsset(quotes[k])
  }

  /** The parts of a market without a slash are those it concatenates. */
  lemma PartsOfConcatenation(market: string, base: string, quote: string, quotes: seq<string>)
    requires '/' !in market && IsAsset(base) && IsAsset(quote) && AllAssets(quotes)
    ensures Parts(Slashed(market, quotes)) == Some((base, quote))
        <==> market == base + quote && Claims(base, quote, quotes)
  {
    var slashed := Slashed(market, quotes);
    if Parts(slashed) == Some((base, quote)) {
      PartsJoin(slashed, base, quote);
      assert slashed[|base|] == '/';
      var k := SlashedWhere(market, quotes);
      var cut := |market| - |quotes[k]|;
      IndexOfFirst(slashed, '/', cut);
      assert slashed[..cut] == market[..cut] && slashed[cut + 1..] == quotes[k];
      assert market == base + quote;
    }
    if market == base + quote && Claims(base, quote, quotes) {
      var k :| 0 <= k < |quotes| && quotes[k] == quote
            && forall j :: 0 <= j < k ==> !SplitsOff(base + quote, quotes[j]);
      assert market[|base|..] == quote && market[..|base|] == base;
      SlashedAtFirst(market, quotes, k);
      PartsOfPair(base, quote);
    }
  }

  lemma PartsOfMarket(market: string, base: string, quote: string, quotes: seq<string>)
    requires IsAsset(base) && IsAsset(quote) && AllAssets(quotes)
    ensures PartsOf(market, quotes) == Some((base, quote)) <==> SpellsMarket(market, base, quote, quotes)
  {
    PartsOfPair(base, quote);
    if '/' in market {
      if Parts(market) == Some((base, quote)) { PartsJoin(market, base, quote); }
      assert '/' !in base + quote;
    } else {
      PartsOfConcatenation(market, base, quote, quotes);
    }
  }

  predicate NoColon(market: string) {
    forall j :: 0 <= j < |market| ==> market[j] != ':'
  }

  lemma SplitAtColon(market: string, settlement: string)
    requires NoColon(market)
    ensures MarketOf(market) == market && SettlementOf(market) == None
    ensures MarketOf(market + ":" + settlement) == market
    ensures SettlementOf(market + ":" + settlement) == Some(settlement)
  {
    var compact := market + ":" + settlement;
    IndexOfFirst(compact, ':', |market|);
    assert compact[..|market|] == market && compact[|market| + 1..] == settlement;
    assert market[..|market|] == market;
  }

  lemma JoinAtColon(compact: string)
    ensures compact == match SettlementOf(compact)
                       case None => MarketOf(compact)
                       case Some(settlement) => MarketOf(compact) + ":" + settlement
    ensures NoColon(MarketOf(compact))
  {
  }

  lemma SpelledMarketShape(market: string, base: string, quote: string, quotes: seq<string>)
    requires IsAsset(base) && IsAsset(quote) && SpellsMarket(market, base, quote, quotes)
    ensures NoColon(market) && market != ""
  {
  }

  /** A spelt market reads as its pair, unless that is an asset against itself. */
  lemma MarketIsRead(market: string, settlement: Option<string>, base: string, quote: string, quotes: seq<string>)
    requires IsAsset(base) && IsAsset(quote) && AllAssets(quotes) && SpellsMarket(market, base, quote, quotes)
    requires settlement == None || settlement == Some(quote)
    ensures ReadMarket(market, settlement, quotes) == if base == quote then None else Some(base + "/" + quote)
  {
    PartsOfMarket(market, base, quote, quotes);
  }

  /** Every accepted text reads as two distinct assets it spells. */
  lemma ReadIsSpelt(compact: string, quotes: seq<string>) returns (base: string, quote: string)
    requires Read(compact, quotes).Some? && AllAssets(quotes)
    ensures IsPair(base, quote) && Read(compact, quotes) == Some(base + "/" + quote)
    ensures Spells(compact, base, quote, quotes)
  {
    var market := MarketOf(compact);
    var parts := PartsOf(market, quotes).value;
    base, quote := parts.0, parts.1;
    PartsOfMarket(market, base, quote, quotes);
    JoinAtColon(compact);
  }

  /** Conversely every spelling is read, unless it sets an asset against itself. */
  lemma SpeltIsRead(compact: string, base: string, quote: string, quotes: seq<string>)
    requires IsAsset(base) && IsAsset(quote) && AllAssets(quotes) && Spells(compact, base, quote, quotes)
    ensures Read(compact, quotes) == if base == quote then None else Some(base + "/" + quote)
  {
    var market :| SpellsMarket(market, base, quote, quotes)
               && (compact == market || compact == market + ":" + quote);
    SpelledMarketShape(market, base, quote, quotes);
    SplitAtColon(market, quote);
    MarketIsRead(market, SettlementOf(compact), base, quote, quotes);
  }

  /** The listed quotes that end `base + quote` are decided by their last letters. */
  lemma EarlierQuotes(base: string, k: nat, j: nat)
    requires IsAsset(base) && j < k < |QUOTES|
    ensures SplitsOff(base + QUOTES[k], QUOTES[j]) <==> (j == 2 && k == 3 && EndsWith(base, "B"))
  {
    var market := base + QUOTES[k];
    var n := |market|;
    if EndsWith(market, QUOTES[j]) {
      assert market[n - |QUOTES[j]|..][|QUOTES[j]| - 1] == market[n - 1] == QUOTES[k][|QUOTES[k]| - 1];
      assert market[n - |QUOTES[j]|..][|QUOTES[j]| - 2] == market[n - 2] == QUOTES[k][|QUOTES[k]| - 2];
      if j == 2 && k == 3 {
        assert market[n - 4..][0] == market[n - 4] == base[|base| - 1];
        assert base[|base| - 1..] == "B";
      }
    }
    if j == 2 && k == 3 && EndsWith(base, "B") {
      assert base[|base| - 1..][0] == 'B';
      assert market[n - 4..] == "BUSD";
    }
  }

  /** Each listed quote claims its own concatenations, but BUSD takes USD's after a B. */
  lemma ListedQuotesClaim(base: string, quote: string)
    requires IsAsset(base)
    ensures Claims(base, quote, QUOTES) <==> quote in QUOTES && !(quote == "USD" && EndsWith(base, "B"))
  {
    if quote in QUOTES {
      var k :| 0 <= k < |QUOTES| && QUOTES[k] == quote;
      forall j: nat | j < k
        ensures SplitsOff(base + quote, QUOTES[j]) <==> (j == 2 && k == 3 && EndsWith(base, "B"))
      { EarlierQuotes(base, k, j); }
      assert k == 3 <==> quote == "USD";
      assert forall i :: 0 <= i < |QUOTES| && QUOTES[i] == quote ==> i == k;
      if k == 3 { assert SplitsOff(base + quote, QUOTES[2]) <==> EndsWith(base, "B"); }
    }
  }

  // ---------------------------------------------------------------- main results

  lemma ReadsExactlyItsSpellings(compact: string, base: string, quote: string, quotes: seq<string>)
    requires IsPair(base, quote) && AllAssets(quotes)
    ensures Read(compact, quotes) == Some(base + "/" + quote) <==> Spells(compact, base, quote, quotes)
  {
    if Read(compact, quotes) == Some(base + "/" + quote) {
      var b, q := ReadIsSpelt(compact, quotes);
      PairTextInjective(base, quote, b, q);
    }
    if Spells(compact, base, quote, quotes) { SpeltIsRead(compact, base, quote, quotes); }
  }

  /** A value names a pair exactly when its compact form is one of that pair's spellings. */
  lemma {:induction false} NormalizesExactlyItsSpellings(value: string, base: string, quote: string)
    requires IsPair(base, quote)
    ensures Normalized(value) == Some(base + "/" + quote) <==> Spells(Compact(value), base, quote, QUOTES)
  {
    ReadsExactlyItsSpellings(Compact(value), base, quote, QUOTES);
  }

  lemma PairIsRead(base: string, quote: string, quotes: seq<string>)
    requires IsPair(base, quote) && AllAssets(quotes)
    ensures Read(base + "/" + quote, quotes) == Some(base + "/" + quote)
    ensures Read(base + "/" + quote + ":" + quote, quotes) == Some(base + "/" + quote)
  {
    assert SpellsMarket(base + "/" + quote, base, quote, quotes);
    SpeltIsRead(base + "/" + quote, base, quote, quotes);
    SpeltIsRead(base + "/" + quote + ":" + quote, base, quote, quotes);
  }

  lemma PairIsCompact(base: string, quote: string)
    requires IsAsset(base) && IsAsset(quote)
    ensures Compact(base + "/" + quote) == base + "/" + quote
  {
    CompactFixes(base + "/" + quote);
  }

  lemma {:induction false} RereadsItself(compact: string, quotes: seq<string>) returns (base: string, quote: string)
    requires Read(compact, quotes).Some? && AllAssets(quotes)
    ensures IsPair(base, quote) && Read(compact, quotes) == Some(base + "/" + quote)
    ensures Read(Compact(base + "/" + quote), quotes) == Some(base + "/" + quote)
  {
    base, quote := ReadIsSpelt(compact, quotes);
    PairIsCompact(base, quote);
    PairIsRead(base, quote, quotes);
  }

  /** Only two distinct assets joined by a slash are ever returned, and they normalise to themselves. */
  lemma Idempotent(value: string) returns (base: string, quote: string)
    requires Normalized(value).Some?
    ensures IsPair(base, quote) && Normalized(value) == Some(base + "/" + quote)
    ensures Normalized(Normalized(value).value) == Normalized(value)
  {
    base, quote := RereadsItself(Compact(value), QUOTES);
  }

  /** `B/Q` and `B/Q:Q` always agree; the concatenation agrees with them exactly when
      no earlier listed quote claims its end. */
  lemma SpellingsAgree(base: string, quote: string)
    requires IsPair(base, quote) && quote in QUOTES
    ensures Normalized(base + "/" + quote) == Some(base + "/" + quote)
    ensures Normalized(base + "/" + quote + ":" + quote) == Some(base + "/" + quote)
    ensures Normalized(base + quote) == Some(base + "/" + quote) <==> !(quote == "USD" && EndsWith(base, "B"))
  {
    var market := base + "/" + quote;
    CompactFixes(market);
    CompactFixes(market + ":" + quote);
    CompactFixes(base + quote);
    PairIsRead(base, quote, QUOTES);
    ListedQuotesClaim(base, quote);
    ReadsExactlyItsSpellings(base + quote, base, quote, QUOTES);
    ConcatenationSpells(base, quote, QUOTES);
  }

  lemma ConcatenationSpells(base: string, quote: string, quotes: seq<string>)
    requires IsPair(base, quote)
    ensures Spells(base + quote, base, quote, quotes) <==> Claims(base, quote, quotes)
  {
    var compact := base + quote;
    assert forall c :: c in compact ==> c != '/' && c != ':';
    assert (base + "/" + quote)[|base|] == '/';
    if Spells(compact, base, quote, quotes) {
      var market :| SpellsMarket(market, base, quote, quotes)
                 && (compact == market || compact == market + ":" + quote);
      assert ':' in market + ":" + quote by { assert (market + ":" + quote)[|market|] == ':'; }
    }
    if Claims(base, quote, quotes) { assert SpellsMarket(compact, base, quote, quotes); }
  }

  /** What the migration reads: a slashed pair, settled or not, or a bare USDT concatenation. */
  ghost predicate SpellsForMigration(compact: string, base: string, quote: string) {
    || compact == base + "/" + quote
    || compact == base + "/" + quote + ":" + quote
    || (compact == base + quote && quote == "USDT")
  }

  lemma MigrationClaims(base: string, quote: string)
    requires IsAsset(base)
    ensures Claims(base, quote, MIGRATION_QUOTES) <==> quote == "USDT"
  {
    if quote == "USDT" { assert MIGRATION_QUOTES[0] == quote; }
  }

  lemma MigrationReadsSpelt(compact: string) returns (base: string, quote: string)
    requires ReadForMigration(compact, MIGRATION_QUOTES).Some?
    ensures IsAsset(base) && IsAsset(quote)
    ensures ReadForMigration(compact, MIGRATION_QUOTES) == Some(base + "/" + quote)
    ensures SpellsForMigration(compact, base, quote)
  {
    var market := MarketOf(compact);
    var parts := PartsOf(market, MIGRATION_QUOTES).value;
    base, quote := parts.0, parts.1;
    PartsOfMarket(market, base, quote, MIGRATION_QUOTES);
    MigrationClaims(base, quote);
    JoinAtColon(compact);
    if SettlementOf(compact).Some? { SettlementIsQuote(market, base, quote, SettlementOf(compact).value); }
  }

  /** A market of two assets that ends in a slash and a settlement is slashed and settled in its quote. */
  lemma SettlementIsQuote(market: string, base: string, quote: string, settlement: string)
    requires market == base + "/" + quote || market == base + quote
    requires IsAsset(base) && IsAsset(quote) && EndsWith(market, "/" + settlement)
    ensures settlement == quote && market == base + "/" + quote
  {
    var at := |market| - |settlement| - 1;
    assert market[at..][0] == '/' == market[at];
    assert at == |base|;
    assert settlement == market[at..][1..] == market[at + 1..] == quote;
  }

  lemma MarketReadsForMigration(market: string, settlement: Option<string>, base: string, quote: string,
                                quotes: seq<string>)
    requires IsAsset(base) && IsAsset(quote) && AllAssets(quotes) && SpellsMarket(market, base, quote, quotes)
    requires settlement.Some? ==> settlement.value == quote && market == base + "/" + quote
    ensures ReadMarketForMigration(market, settlement, quotes) == Some(base + "/" + quote)
  {
    PartsOfMarket(market, base, quote, quotes);
    if settlement.Some? { assert market[|base|..] == "/" + quote; }
  }

  lemma MigrationReadsItsSpellings(compact: string, base: string, quote: string, quotes: seq<string>)
    requires IsAsset(base) && IsAsset(quote) && SpellsForMigration(compact, base, quote)
    requires AllAssets(quotes) && (quote == "USDT" ==> Claims(base, quote, quotes))
    ensures ReadForMigration(compact, quotes) == Some(base + "/" + quote)
  {
    var slashed := base + "/" + quote;
    var market := if compact == slashed + ":" + quote then slashed else compact;
    SpelledMarketShape(market, base, quote, quotes);
    SplitAtColon(market, quote);
    MarketReadsForMigration(market, SettlementOf(compact), base, quote, quotes);
  }

  /** Whatever the migration accepts the authority accepts as the same pair, unless the
      pair is an asset against itself, which only the migration lets through. */
  lemma MigrationAgrees(value: string) returns (base: string, quote: string)
    requires Migrated(value).Some?
    ensures IsAsset(base) && IsAsset(quote) && Migrated(value) == Some(base + "/" + quote)
    ensures Normalized(value) == (if base == quote then None else Migrated(value))
  {
    var compact := Compact(value);
    base, quote := MigrationReadsSpelt(compact);
    AuthorityReads(compact, base, quote);
  }

  /** USDT is listed first, so it claims its own concatenations. */
  lemma UsdtClaims(base: string)
    ensures Claims(base, "USDT", QUOTES)
  {
    assert QUOTES[0] == "USDT";
  }

  lemma AuthorityReads(compact: string, base: string, quote: string)
    requires IsAsset(base) && IsAsset(quote) && SpellsForMigration(compact, base, quote)
    ensures Read(compact, QUOTES) == if base == quote then None else Some(base + "/" + quote)
  {
    UsdtClaims(base);
    ReadAlike(compact, base, quote, QUOTES);
  }

  lemma ReadAlike(compact: string, base: string, quote: string, quotes: seq<string>)
    requires IsAsset(base) && IsAsset(quote) && AllAssets(quotes)
    requires SpellsForMigration(compact, base, quote) && (quote == "USDT" ==> Claims(base, quote, quotes))
    ensures Read(compact, quotes) == if base == quote then None else Some(base + "/" + quote)
  {
    assert SpellsMarket(base + "/" + quote, base, quote, quotes);
    if quote == "USDT" { assert SpellsMarket(base + quote, base, quote, quotes); }
    SpeltIsRead(compact, base, quote, quotes);
  }

  /** Conversely the migration accepts an accepted value exactly when it is written with
      its slash, or is a bare concatenation with USDT. */
  lemma MigrationAcceptsExactly(value: string) returns (base: string, quote: string)
    requires Normalized(value).Some?
    ensures IsPair(base, quote) && Normalized(value) == Some(base + "/" + quote)
    ensures Migrated(value).Some? <==> SpellsForMigration(Compact(value), base, quote)
  {
    var compact := Compact(value);
    base, quote := ReadIsSpelt(compact, QUOTES);
    if Migrated(value).Some? { MigratedIsSpelt(compact, base, quote); }
    if SpellsForMigration(compact, base, quote) { SpeltIsMigrated(compact, base, quote); }
  }

  lemma MigratedIsSpelt(compact: string, base: string, quote: string)
    requires IsPair(base, quote) && Read(compact, QUOTES) == Some(base + "/" + quote)
    requires ReadForMigration(compact, MIGRATION_QUOTES).Some?
    ensures SpellsForMigration(compact, base, quote)
  {
    var b, q := MigrationReadsSpelt(compact);
    AuthorityReads(compact, b, q);
    PairTextInjective(base, quote, b, q);
  }

  lemma SpeltIsMigrated(compact: string, base: string, quote: string)
    requires IsPair(base, quote) && SpellsForMigration(compact, base, quote)
    ensures ReadForMigration(compact, MIGRATION_QUOTES).Some?
  {
    MigrationClaims(base, quote);
    MigrationReadsItsSpellings(compact, base, quote, MIGRATION_QUOTES);
  }
}
