/** What the two canonicalisers make of a text, character by character: which characters do not
    matter, and exactly which texts name a pair.  Letters, digits and whitespace are given by
    ranges and lists of characters, and nothing is stated through the routines' own cleaning. */
module CanonicalPairMeaning {
  import opened Wrappers
  import opened CanonicalPair

  // ---------------------------------------------------------------- characters

  predicate IsWhite(c: char) {
    c in {' ', '\t', '\n', '\U{0b}', '\U{0c}', '\r', '\U{1c}', '\U{1d}', '\U{1e}', '\U{1f}'}
  }

  predicate IsSmall(c: char) { 'a' <= c <= 'z' }

  predicate IsCapital(c: char) { 'A' <= c <= 'Z' }

  /** The same letter, once small and once capital. */
  predicate OtherCase(a: char, b: char) {
    || (IsSmall(a) && IsCapital(b) && a as int - 'a' as int == b as int - 'A' as int)
    || (IsCapital(a) && IsSmall(b) && a as int - 'A' as int == b as int - 'a' as int)
  }

  /** `compact` is `value` with its whitespace left out and its small letters made capital. */
  predicate IsCleaned(value: string, compact: string) {
    if value == "" then compact == ""
    else if IsWhite(value[0]) then IsCleaned(value[1..], compact)
    else
      && compact != ""
      && (if IsSmall(value[0]) then OtherCase(value[0], compact[0]) else compact[0] == value[0])
      && IsCleaned(value[1..], compact[1..])
  }

  lemma {:induction false} CleanedIsCompact(value: string, compact: string)
    ensures IsCleaned(value, compact) <==> compact == Compact(value)
  {
    if value == "" {
    } else if IsWhite(value[0]) {
      CleanedIsCompact(value[1..], compact);
    } else if compact != "" {
      CleanedIsCompact(value[1..], compact[1..]);
      assert compact == [compact[0]] + compact[1..];
    }
  }

  /** Nothing that is left is whitespace or a small letter. */
  lemma {:induction false} CompactIsClean(value: string)
    ensures forall c :: c in Compact(value) ==> !IsWhite(c) && !IsSmall(c)
  {
    if value != "" { CompactIsClean(value[1..]); }
  }

  lemma CompactStep(c: char, rest: string)
    ensures Compact([c] + rest) == (if IsWhite(c) then "" else [UpperChar(c)]) + Compact(rest)
  {
    assert ([c] + rest)[1..] == rest;
  }

  lemma JoinsOneMore(c: char, rest: string, right: string)
    requires Compact(rest + right) == Compact(rest) + Compact(right)
    ensures Compact([c] + (rest + right)) == Compact([c] + rest) + Compact(right)
  {
    CompactStep(c, rest);
    CompactStep(c, rest + right);
  }

  lemma {:induction false} CompactJoins(left: string, right: string)
    ensures Compact(left + right) == Compact(left) + Compact(right)
  {
    if left == "" {
      assert left + right == right;
    } else {
      CompactJoins(left[1..], right);
      JoinsOneMore(left[0], left[1..], right);
      assert left == [left[0]] + left[1..] && left + right == [left[0]] + (left[1..] + right);
    }
  }

  lemma CompactOfOne(c: char)
    ensures Compact([c]) == if IsWhite(c) then "" else [UpperChar(c)]
  {
    assert [c][1..] == "";
  }

  lemma SpaceVanishes(left: string, c: char, right: string)
    requires IsWhite(c)
    ensures Compact(left + [c] + right) == Compact(left + right)
  {
    CompactJoins(left + [c], right);
    CompactJoins(left, [c]);
    CompactJoins(left, right);
    CompactOfOne(c);
  }

  lemma CaseVanishes(left: string, a: char, b: char, right: string)
    requires OtherCase(a, b)
    ensures Compact(left + [a] + right) == Compact(left + [b] + right)
  {
    CompactJoins(left + [a], right);
    CompactJoins(left, [a]);
    CompactJoins(left + [b], right);
    CompactJoins(left, [b]);
    CompactOfOne(a);
    CompactOfOne(b);
  }

  /** Whitespace may be inserted or removed anywhere without changing what a text names. */
  lemma {:induction false} SpaceDoesNotMatter(left: string, c: char, right: string)
    requires IsWhite(c)
    ensures Normalized(left + [c] + right) == Normalized(left + right)
    ensures Migrated(left + [c] + right) == Migrated(left + right)
  {
    SpaceVanishes(left, c, right);
  }

  /** Any letter may be replaced by its other case without changing what a text names. */
  lemma {:induction false} CaseDoesNotMatter(left: string, a: char, b: char, right: string)
    requires OtherCase(a, b)
    ensures Normalized(left + [a] + right) == Normalized(left + [b] + right)
    ensures Migrated(left + [a] + right) == Migrated(left + [b] + right)
  {
    CaseVanishes(left, a, b, right);
  }

  // ---------------------------------------------------------------- what names a pair

  /** Two to twenty capitals and digits. */
  predicate IsTicker(s: string) {
    2 <= |s| <= 20 && forall c :: c in s ==> 'A' <= c <= 'Z' || '0' <= c <= '9'
  }

  /** The listed quotes, of which USD gives way to BUSD. */
  predicate TakesConcatenation(base: string, quote: string) {
    || quote == "USDT" || quote == "USDC" || quote == "BUSD" || quote == "BTC" || quote == "ETH"
    || (quote == "USD" && (base == "" || base[|base| - 1] != 'B'))
  }

  /** The clean texts that name a pair: slashed, or joined where the quote is listed, with or without
      the quote again behind a colon. */
  predicate Names(compact: string, base: string, quote: string) {
    || compact == base + "/" + quote
    || compact == base + "/" + quote + ":" + quote
    || (TakesConcatenation(base, quote) && (compact == base + quote || compact == base + quote + ":" + quote))
  }

  lemma TickerIsAsset(s: string)
    ensures IsTicker(s) <==> IsAsset(s)
  {
    if IsAsset(s) {
      forall c | c in s ensures 'A' <= c <= 'Z' || '0' <= c <= '9' {
        var i :| 0 <= i < |s| && s[i] == c;
      }
    }
    if IsTicker(s) {
      forall i | 0 <= i < |s| ensures IsAssetChar(s[i]) { assert s[i] in s; }
    }
  }

  lemma TakesMeans(base: string, quote: string)
    requires IsAsset(base)
    ensures Claims(base, quote, QUOTES) <==> TakesConcatenation(base, quote)
  {
    ListedQuotesClaim(base, quote);
    LastIsB(base);
    ListedAre(quote);
  }

  lemma LastIsB(base: string)
    requires base != ""
    ensures EndsWith(base, "B") <==> base[|base| - 1] == 'B'
  {
    assert base[|base| - 1..] == [base[|base| - 1]];
  }

  lemma ListedAre(quote: string)
    ensures quote in QUOTES <==> quote in ["USDT", "USDC", "BUSD", "USD", "BTC", "ETH"]
  {
  }

  lemma SpellsMeans(compact: string, base: string, quote: string, quotes: seq<string>)
    requires Claims(base, quote, quotes) <==> TakesConcatenation(base, quote)
    ensures Spells(compact, base, quote, quotes) <==> Names(compact, base, quote)
  {
    if Names(compact, base, quote) {
      if compact == base + "/" + quote || compact == base + "/" + quote + ":" + quote {
        assert SpellsMarket(base + "/" + quote, base, quote, quotes);
      } else {
        assert SpellsMarket(base + quote, base, quote, quotes);
      }
    }
  }

  /** A text names a pair of two tickers if and only if, cleaned, it is one of the pair's spellings. */
  lemma {:induction false} NormalizedMeans(value: string, base: string, quote: string)
    requires IsTicker(base) && IsTicker(quote) && base != quote
    ensures Normalized(value) == Some(base + "/" + quote)
       <==> exists compact :: IsCleaned(value, compact) && Names(compact, base, quote)
  {
    TickerIsAsset(base);
    TickerIsAsset(quote);
    TakesMeans(base, quote);
    NormalizesExactlyItsSpellings(value, base, quote);
    SpellsMeans(Compact(value), base, quote, QUOTES);
    CleanedOnce(value, base, quote);
  }

  lemma {:induction false} CleanedOnce(value: string, base: string, quote: string)
    ensures Names(Compact(value), base, quote)
       <==> exists compact :: IsCleaned(value, compact) && Names(compact, base, quote)
  {
    CleanedIsCompact(value, Compact(value));
    forall compact | IsCleaned(value, compact) ensures compact == Compact(value) { CleanedIsCompact(value, compact); }
  }

  /** Only pairs of two distinct tickers are ever named. */
  lemma {:induction false} OnlyPairsAreNamed(value: string) returns (base: string, quote: string)
    requires Normalized(value) != None
    ensures IsTicker(base) && IsTicker(quote) && base != quote && Normalized(value) == Some(base + "/" + quote)
  {
    base, quote := Idempotent(value);
    TickerIsAsset(base);
    TickerIsAsset(quote);
  }

  /** The migration reads only slashed texts, with or without the quote again behind a colon, and
      texts joined with USDT. */
  predicate NamesForMigration(compact: string, base: string, quote: string) {
    || compact == base + "/" + quote
    || compact == base + "/" + quote + ":" + quote
    || (quote == "USDT" && compact == base + quote)
  }

  lemma {:induction false} MigratedMeans(value: string, base: string, quote: string)
    requires IsTicker(base) && IsTicker(quote)
    ensures Migrated(value) == Some(base + "/" + quote)
       <==> exists compact :: IsCleaned(value, compact) && NamesForMigration(compact, base, quote)
  {
    TickerIsAsset(base);
    TickerIsAsset(quote);
    MigrationReads(Compact(value), base, quote);
    CleanedIsCompact(value, Compact(value));
    forall compact | IsCleaned(value, compact) ensures compact == Compact(value) { CleanedIsCompact(value, compact); }
  }

  lemma {:induction false} MigrationReads(compact: string, base: string, quote: string)
    requires IsAsset(base) && IsAsset(quote)
    ensures ReadForMigration(compact, MIGRATION_QUOTES) == Some(base + "/" + quote)
       <==> NamesForMigration(compact, base, quote)
  {
    if ReadForMigration(compact, MIGRATION_QUOTES) == Some(base + "/" + quote) {
      var b, q := MigrationReadsSpelt(compact);
      PairTextInjective(base, quote, b, q);
    }
    if NamesForMigration(compact, base, quote) {
      MigrationClaims(base, quote);
      MigrationReadsItsSpellings(compact, base, quote, MIGRATION_QUOTES);
    }
  }

  /** And it names only pairs of tickers, which need not be distinct. */
  lemma {:induction false} OnlyTickersAreMigrated(value: string) returns (base: string, quote: string)
    requires Migrated(value) != None
    ensures IsTicker(base) && IsTicker(quote) && Migrated(value) == Some(base + "/" + quote)
  {
    base, quote := MigrationAgrees(value);
    TickerIsAsset(base);
    TickerIsAsset(quote);
  }
}
