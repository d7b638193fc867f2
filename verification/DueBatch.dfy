/** The token check on the honest books of two chains: the batch that is due passes it and is paid in full. */
module DueBatch {
  import opened Common
  import opened Batches
  import opened BatchLists
  import opened Cumulation
  import BV = BalanceValidator
  import opened Ledger
  import opened TokenCheck

  function DirectionOf(c: Chain): Direction {
    if c.Eth? then ToMultiversX else FromMultiversX
  }

  /** Ethereum tokens are addresses. */
  ghost predicate Addressed(reg: Registry) {
    forall e, m :: (e, m) in reg.pairs ==> |e| == ADDRESS_LENGTH
  }

  ghost predicate AllPaired(reg: Registry, c: Chain, ds: seq<Deposit>) {
    forall i :: 0 <= i < |ds| ==> Paired(reg, c, ds[i].sourceToken, ds[i].destinationToken)
  }

  lemma ListedAsIs(reg: Registry, c: Chain, ds: seq<Deposit>, i: nat)
    requires Addressed(reg) && AllPaired(reg, c, ds) && i < |ds|
    ensures var arg := ListsOf(ds, DirectionOf(c));
            && (arg.ethTokens[i], arg.mvxTokens[i]) in reg.pairs
            && arg.ethTokens[i] == (if c.Eth? then ds[i].sourceToken else ds[i].destinationToken)
            && arg.mvxTokens[i] == if c.Eth? then ds[i].destinationToken else ds[i].sourceToken
  {
  }

  lemma ListsOfPrefix(ds: seq<Deposit>, direction: Direction, n: nat)
    requires n <= |ds|
    ensures ListsOf(ds, direction).ethTokens[..n] == ListsOf(ds[..n], direction).ethTokens
    ensures ListsOf(ds, direction).amounts[..n] == ListsOf(ds[..n], direction).amounts
  {
  }

  /** The sum per Ethereum token is the batch's total of that token on either side. */
  lemma {:induction false} SumIsTotal(reg: Registry, c: Chain, ds: seq<Deposit>, e: Bytes)
    requires Addressed(reg) && AllPaired(reg, c, ds)
    ensures var arg := ListsOf(ds, DirectionOf(c));
            SumFor(arg.ethTokens, arg.amounts, e) == if c.Eth? then BV.TokenTotal(ds, e) else DestinationTotal(ds, e)
  {
    if ds != [] {
      var n := |ds| - 1;
      SumIsTotal(reg, c, ds[..n], e);
      ListedAsIs(reg, c, ds, n);
      ListsOfPrefix(ds, DirectionOf(c), n);
    }
  }

  /** In every reachable state of the two ledgers, in either direction, the batch that is due passes the check. */
  lemma DueBatchIsAvailable(reg: Registry, states: seq<Books>, events: seq<Event>, n: nat, c: Chain)
    requires LegalRegistry(reg) && Addressed(reg) && IsRun(reg, states, events) && n <= |events|
    requires states[n].Of(c).executed < |states[n].Of(c).batches|
    ensures WellFormed(reg, states[n]) && BV.WalksEnd(View(reg, states[n]), |states[n].eth.batches|)
    ensures var ds := states[n].Of(c).batches[states[n].Of(c).executed];
            AllPaired(reg, c, ds) && Passes(View(reg, states[n]), ListsOf(ds, DirectionOf(c)), |states[n].eth.batches|)
  {
    AlwaysBalanced(reg, states, events, n);
    ViewEnds(reg, states[n]);
    var ds := states[n].Of(c).batches[states[n].Of(c).executed];
    assert AllPaired(reg, c, ds);
    var arg := ListsOf(ds, DirectionOf(c));
    forall i | 0 <= i < |UniqueTokens(arg.ethTokens)|
      ensures BV.Verdict(View(reg, states[n]), UniqueTokens(arg.ethTokens)[i],
                         Converted(arg.ethTokens, arg.mvxTokens)[i],
                         SumFor(arg.ethTokens, arg.amounts, UniqueTokens(arg.ethTokens)[i]),
                         DirectionOf(c), |states[n].eth.batches|).Ok?
    {
      var j := ConvertedStandsBeside(arg.ethTokens, arg.mvxTokens, i);
      ListedAsIs(reg, c, ds, j);
      SumIsTotal(reg, c, ds, arg.ethTokens[j]);
      BatchTotalsMatch(reg, c, ds, ds[j].sourceToken, ds[j].destinationToken);
      NextBatchPasses(reg, states, events, n, c, arg.ethTokens[j], arg.mvxTokens[j]);
    }
  }

  lemma PairsAreOneToOne(reg: Registry, c: Chain, ds: seq<Deposit>, i: nat, j: nat)
    requires LegalRegistry(reg) && Addressed(reg) && AllPaired(reg, c, ds) && i < |ds| && j < |ds|
    ensures var arg := ListsOf(ds, DirectionOf(c));
            arg.ethTokens[i] == arg.ethTokens[j] <==> arg.mvxTokens[i] == arg.mvxTokens[j]
  {
    ListedAsIs(reg, c, ds, i);
    ListedAsIs(reg, c, ds, j);
    var arg := ListsOf(ds, DirectionOf(c));
    assert Paired(reg, Eth, arg.ethTokens[i], arg.mvxTokens[i]) && Paired(reg, Eth, arg.ethTokens[j], arg.mvxTokens[j]);
    assert Paired(reg, Mvx, arg.mvxTokens[i], arg.ethTokens[i]) && Paired(reg, Mvx, arg.mvxTokens[j], arg.ethTokens[j]);
  }

  /** And the receiving safe pays its deposits one by one without being overdrawn by any of them. */
  lemma DueBatchIsPaid(reg: Registry, states: seq<Books>, events: seq<Event>, n: nat, c: Chain, k: nat)
    requires LegalRegistry(reg) && Addressed(reg) && IsRun(reg, states, events) && n <= |events|
    requires states[n].Of(c).executed < |states[n].Of(c).batches|
    requires k <= |states[n].Of(c).batches[states[n].Of(c).executed]|
    ensures WellFormed(reg, states[n])
    ensures var arg := ListsOf(states[n].Of(c).batches[states[n].Of(c).executed], DirectionOf(c));
            var ch := View(reg, states[n]);
            if c.Eth?
            then Pay(SafeOf(ch.onMvx, arg.mvxTokens), MintedOf(ch.onMvx, arg.mvxTokens),
                     arg.mvxTokens[..k], arg.amounts[..k]).Some?
            else Pay(SafeOf(ch.onEth, arg.ethTokens), MintedOf(ch.onEth, arg.ethTokens),
                     arg.ethTokens[..k], arg.amounts[..k]).Some?
  {
    DueBatchIsAvailable(reg, states, events, n, c);
    var ds := states[n].Of(c).batches[states[n].Of(c).executed];
    var arg := ListsOf(ds, DirectionOf(c));
    if c.Eth? {
      forall i, j | 0 <= i < |ds| && 0 <= j < |ds|
        ensures arg.ethTokens[i] == arg.ethTokens[j] <==> arg.mvxTokens[i] == arg.mvxTokens[j]
      {
        PairsAreOneToOne(reg, c, ds, i, j);
      }
      OneToOneIsPaidOnMultiversX(View(reg, states[n]), arg, |states[n].eth.batches|, k);
    } else {
      PassedIsPaidOnEthereum(View(reg, states[n]), arg, |states[n].eth.batches|, k);
    }
  }
}
