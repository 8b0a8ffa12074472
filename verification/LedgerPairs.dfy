/** The ledger with the pair authority that is in use: what its one-signal-a-pair rule says of the
    texts that the signals' symbols are written in. */
module LedgerPairs {
  import opened Wrappers
  import opened CanonicalPair
  import opened CanonicalPairMeaning
  import opened ActiveSignalLedger
  import opened LedgerInvariants
  import opened LedgerMeaning

  /** The symbol is a text that, cleaned, is a spelling of the pair. */
  ghost predicate SymbolNames(symbol: Id, base: string, quote: string) {
    symbol.Named? && exists compact :: IsCleaned(symbol.text, compact) && Names(compact, base, quote)
  }

  lemma {:induction false} AuthorityReads(symbol: Id, base: string, quote: string)
    requires IsTicker(base) && IsTicker(quote) && base != quote
    ensures AUTHORITY(symbol) == Some(base + "/" + quote) <==> SymbolNames(symbol, base, quote)
  {
    if symbol.Named? { NormalizedMeans(symbol.text, base, quote); }
  }

  lemma {:induction false} AuthorityReadsPairs(symbol: Id) returns (base: string, quote: string)
    requires AUTHORITY(symbol) != None
    ensures IsTicker(base) && IsTicker(quote) && base != quote && SymbolNames(symbol, base, quote)
  {
    base, quote := OnlyPairsAreNamed(symbol.text);
    AuthorityReads(symbol, base, quote);
  }

  /** In every run each recorded symbol names a pair of two distinct tickers, and no two entered
      signals have symbols that name the same pair, however differently they are written. */
  lemma {:induction false} EnteredPairsDiffer(createdAt: int, calls: seq<Call>, a: Id, b: Id)
    returns (base: string, quote: string)
    requires a in Run(AUTHORITY, EmptyLedger(createdAt), calls).signals
    ensures var signals := Run(AUTHORITY, EmptyLedger(createdAt), calls).signals;
            && IsTicker(base) && IsTicker(quote) && base != quote && SymbolNames(signals[a].publication.symbol, base, quote)
            && (b in signals && a != b && signals[a].state == EntryActive && signals[b].state == EntryActive ==>
                  !SymbolNames(signals[b].publication.symbol, base, quote))
  {
    var signals := Run(AUTHORITY, EmptyLedger(createdAt), calls).signals;
    ReachableIsSound(AUTHORITY, createdAt, calls);
    base, quote := AuthorityReadsPairs(signals[a].publication.symbol);
    AuthorityReads(signals[a].publication.symbol, base, quote);
    if b in signals { AuthorityReads(signals[b].publication.symbol, base, quote); }
  }
}
