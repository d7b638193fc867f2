/** The executor's check of a whole batch: its transfers cumulated per token, each sum put to the balance validator. */
module TokenCheck {
  import opened Common
  import opened Batches
  import opened BatchLists
  import opened Cumulation
  import BV = BalanceValidator

  /** Every token of the batch passes with its cumulated amount. */
  ghost predicate AllPass(ch: BV.Clients, ethTokens: seq<Bytes>, mvxTokens: seq<Bytes>, amounts: seq<int>,
                          direction: Direction, end: u64)
    requires |ethTokens| == |mvxTokens| == |amounts| && BV.WalksEnd(ch, end)
  {
    forall i :: 0 <= i < |UniqueTokens(ethTokens)| ==>
      BV.Verdict(ch, UniqueTokens(ethTokens)[i], Converted(ethTokens, mvxTokens)[i],
                 SumFor(ethTokens, amounts, UniqueTokens(ethTokens)[i]), direction, end).Ok?
  }

  method CheckAvailableTokens(ch: BV.Clients, ethTokens: seq<Bytes>, mvxTokens: seq<Bytes>, amounts: seq<BigInt>,
                              direction: Direction, ghost end: u64)
    returns (r: Result<(), BV.Error>)
    requires |ethTokens| == |mvxTokens| == |amounts| && BV.WalksEnd(ch, end)
    ensures r.Ok? <==> AllPass(ch, ethTokens, mvxTokens, Values(amounts), direction, end)
  {
    var tokens, converted, sums := GetCumulatedTransfers(ethTokens, mvxTokens, amounts);
    ghost var values := Values(amounts);
    for k := 0 to |tokens|
      invariant Values(amounts) == values
      invariant forall i :: 0 <= i < |tokens| ==> sums[i].v == SumFor(ethTokens, values, tokens[i])
      invariant forall i :: 0 <= i < k ==>
                  BV.Verdict(ch, tokens[i], converted[i], SumFor(ethTokens, values, tokens[i]), direction, end).Ok?
    {
      var verdict := BV.CheckToken(ch, tokens[k], converted[k], sums[k].v, direction, end);
      if verdict.Err? {
        assert Values(amounts) == values;
        assert !BV.Verdict(ch, UniqueTokens(ethTokens)[k], Converted(ethTokens, mvxTokens)[k],
                           SumFor(ethTokens, values, UniqueTokens(ethTokens)[k]), direction, end).Ok?;
        return verdict;
      }
    }
    r := Ok(());
  }

  /** The check as the first step of either machine makes it, on the lists of a batch. */
  ghost predicate Passes(ch: BV.Clients, arg: ArgLists, end: u64)
    requires BV.WalksEnd(ch, end)
  {
    && |arg.ethTokens| == |arg.mvxTokens| == |arg.amounts|
    && AllPass(ch, arg.ethTokens, arg.mvxTokens, arg.amounts, arg.direction, end)
  }

  // ------------------------------------------------ paying what has passed

  /** What the safe holds of the tokens, as its client answers. */
  ghost function SafeOf(answers: Bytes -> BV.TokenAnswers, tokens: seq<Bytes>): map<Bytes, nat> {
    map t | t in tokens && answers(t).safeBalance.Some? && answers(t).safeBalance.value >= 0 ::
      answers(t).safeBalance.value
  }

  /** The tokens that are minted instead of being paid out. */
  ghost function MintedOf(answers: Bytes -> BV.TokenAnswers, tokens: seq<Bytes>): set<Bytes> {
    set t | t in tokens && answers(t).isMintBurn == Some(true)
  }

  lemma {:induction false} SumIsNotNegative(tokens: seq<Bytes>, amounts: seq<nat>, t: Bytes)
    requires |tokens| == |amounts|
    ensures SumFor(tokens, amounts, t) >= 0
  {
    if tokens != [] {
      SumIsNotNegative(tokens[..|tokens| - 1], amounts[..|tokens| - 1], t);
    }
  }

  /** A sum that passed the required-balance check is in the safe. */
  lemma RequiredIsHeld(answers: Bytes -> BV.TokenAnswers, tokens: seq<Bytes>, t: Bytes, sum: nat)
    requires t in tokens && t !in MintedOf(answers, tokens) && BV.CheckRequired(answers(t), sum).Ok?
    ensures sum <= Balance(SafeOf(answers, tokens), t)
  {
  }

  lemma UniqueIndex(tokens: seq<Bytes>, t: Bytes) returns (i: nat)
    requires t in tokens
    ensures i < |UniqueTokens(tokens)| && UniqueTokens(tokens)[i] == t
  {
    UniqueTokensAreDistinct(tokens);
    assert t in Elements(UniqueTokens(tokens));
    i :| 0 <= i < |UniqueTokens(tokens)| && UniqueTokens(tokens)[i] == t;
  }

  lemma {:induction false} PayPrefix(balances: map<Bytes, nat>, minted: set<Bytes>, tokens: seq<Bytes>,
                                     amounts: seq<nat>, k: nat)
    requires |tokens| == |amounts| && k <= |tokens| && Pay(balances, minted, tokens, amounts).Some?
    ensures Pay(balances, minted, tokens[..k], amounts[..k]).Some?
  {
    var n := |tokens|;
    if k == n {
      assert tokens[..k] == tokens && amounts[..k] == amounts;
    } else {
      PayPrefix(balances, minted, tokens[..n - 1], amounts[..n - 1], k);
      assert tokens[..n - 1][..k] == tokens[..k] && amounts[..n - 1][..k] == amounts[..k];
    }
  }

  /** Towards Ethereum: once the check has passed the safe pays the deposits one by one and is overdrawn by none. */
  lemma PassedIsPaidOnEthereum(ch: BV.Clients, arg: ArgLists, end: u64, k: nat)
    requires BV.WalksEnd(ch, end) && Passes(ch, arg, end) && arg.direction.FromMultiversX? && k <= |arg.amounts|
    ensures Pay(SafeOf(ch.onEth, arg.ethTokens), MintedOf(ch.onEth, arg.ethTokens),
                arg.ethTokens[..k], arg.amounts[..k]).Some?
  {
    var tokens, amounts := arg.ethTokens, arg.amounts;
    var safe, minted := SafeOf(ch.onEth, tokens), MintedOf(ch.onEth, tokens);
    forall t | t in tokens && t !in minted ensures SumFor(tokens, amounts, t) <= Balance(safe, t) {
      var i := UniqueIndex(tokens, t);
      SumIsNotNegative(tokens, amounts, t);
      RequiredIsHeld(ch.onEth, tokens, t, SumFor(tokens, amounts, t));
    }
    PayIffCovered(safe, minted, tokens, amounts);
    PayPrefix(safe, minted, tokens, amounts, k);
  }

  /** Not everything that stands beside `m` on either side is the same pair: the sums per Ethereum token and per
      MultiversX token differ. */
  ghost predicate Ambiguous(ethTokens: seq<Bytes>, mvxTokens: seq<Bytes>, m: Bytes)
    requires |ethTokens| == |mvxTokens|
  {
    exists i, j :: 0 <= i < |mvxTokens| && 0 <= j < |mvxTokens| && mvxTokens[i] == m
                   && (ethTokens[i] == ethTokens[j]) != (mvxTokens[i] == mvxTokens[j])
  }

  lemma {:induction false} SumsAgree(ethTokens: seq<Bytes>, mvxTokens: seq<Bytes>, amounts: seq<int>, e: Bytes,
                                     m: Bytes)
    requires |ethTokens| == |mvxTokens| == |amounts|
    requires forall i :: 0 <= i < |ethTokens| ==> (ethTokens[i] == e <==> mvxTokens[i] == m)
    ensures SumFor(ethTokens, amounts, e) == SumFor(mvxTokens, amounts, m)
  {
    if ethTokens != [] {
      var n := |ethTokens| - 1;
      SumsAgree(ethTokens[..n], mvxTokens[..n], amounts[..n], e, m);
    }
  }

  /** What has passed covers every MultiversX token that is not ambiguous. */
  lemma PassedCoversToken(ch: BV.Clients, arg: ArgLists, end: u64, i: nat)
    requires BV.WalksEnd(ch, end) && Passes(ch, arg, end) && arg.direction.ToMultiversX? && i < |arg.amounts|
    requires !Ambiguous(arg.ethTokens, arg.mvxTokens, arg.mvxTokens[i])
    requires arg.mvxTokens[i] !in MintedOf(ch.onMvx, arg.mvxTokens)
    ensures SumFor(arg.mvxTokens, arg.amounts, arg.mvxTokens[i]) <=
            Balance(SafeOf(ch.onMvx, arg.mvxTokens), arg.mvxTokens[i])
  {
    var e, m := arg.ethTokens[i], arg.mvxTokens[i];
    var u := UniqueIndex(arg.ethTokens, e);
    var k := ConvertedStandsBeside(arg.ethTokens, arg.mvxTokens, u);
    SumsAgree(arg.ethTokens, arg.mvxTokens, arg.amounts, e, m);
    SumIsNotNegative(arg.mvxTokens, arg.amounts, m);
    RequiredIsHeld(ch.onMvx, arg.mvxTokens, m, SumFor(arg.mvxTokens, arg.amounts, m));
  }

  /** Towards MultiversX the amounts are summed per Ethereum token, but the safe pays MultiversX tokens: what has passed
      is paid one by one if and only if the sums of the ambiguous tokens are covered too. */
  lemma PassedIsPaidOnMultiversXIff(ch: BV.Clients, arg: ArgLists, end: u64)
    requires BV.WalksEnd(ch, end) && Passes(ch, arg, end) && arg.direction.ToMultiversX?
    ensures var safe, minted := SafeOf(ch.onMvx, arg.mvxTokens), MintedOf(ch.onMvx, arg.mvxTokens);
            Pay(safe, minted, arg.mvxTokens, arg.amounts).Some? <==>
            forall m :: m in arg.mvxTokens && m !in minted && Ambiguous(arg.ethTokens, arg.mvxTokens, m) ==>
              SumFor(arg.mvxTokens, arg.amounts, m) <= Balance(safe, m)
  {
    var safe, minted := SafeOf(ch.onMvx, arg.mvxTokens), MintedOf(ch.onMvx, arg.mvxTokens);
    PayIffCovered(safe, minted, arg.mvxTokens, arg.amounts);
    forall m | m in arg.mvxTokens && m !in minted && !Ambiguous(arg.ethTokens, arg.mvxTokens, m)
      ensures SumFor(arg.mvxTokens, arg.amounts, m) <= Balance(safe, m)
    {
      var i :| 0 <= i < |arg.mvxTokens| && arg.mvxTokens[i] == m;
      PassedCoversToken(ch, arg, end, i);
    }
  }

  /** In particular when the tokens of the batch stand for each other one to one. */
  lemma OneToOneIsPaidOnMultiversX(ch: BV.Clients, arg: ArgLists, end: u64, k: nat)
    requires BV.WalksEnd(ch, end) && Passes(ch, arg, end) && arg.direction.ToMultiversX? && k <= |arg.amounts|
    requires forall i, j :: 0 <= i < |arg.amounts| && 0 <= j < |arg.amounts| ==>
               (arg.ethTokens[i] == arg.ethTokens[j] <==> arg.mvxTokens[i] == arg.mvxTokens[j])
    ensures Pay(SafeOf(ch.onMvx, arg.mvxTokens), MintedOf(ch.onMvx, arg.mvxTokens),
                arg.mvxTokens[..k], arg.amounts[..k]).Some?
  {
    PassedIsPaidOnMultiversXIff(ch, arg, end);
    PayPrefix(SafeOf(ch.onMvx, arg.mvxTokens), MintedOf(ch.onMvx, arg.mvxTokens), arg.mvxTokens, arg.amounts, k);
  }

  lemma SumOfTwo(t1: Bytes, t2: Bytes, a1: int, a2: int, t: Bytes)
    ensures SumFor([t1, t2], [a1, a2], t) == (if t1 == t then a1 else 0) + if t2 == t then a2 else 0
  {
    assert [t1, t2][..1] == [t1] && [a1, a2][..1] == [a1];
    assert SumFor([t1], [a1], t) == if t1 == t then a1 else 0;
  }

  /** Every Ethereum token wraps, by mint and burn, a native token of which the MultiversX safe holds a hundred. */
  function HundredHeld(): BV.Clients {
    BV.Clients((e: Bytes) => BV.TokenAnswers(Some(true), Some(false), None, None, Some(100), Some(0)),
               (m: Bytes) => BV.TokenAnswers(Some(false), Some(true), Some(100), Some(100), None, None),
               Some(0), (id: u64) => BV.NoBatchAvailable, (id: u64) => None,
               Some(0), (id: u64) => Some(Batch(0, [], [])))
  }

  lemma HundredHeldPasses(e: Bytes, m: Bytes)
    ensures BV.WalksEnd(HundredHeld(), 0) && BV.Verdict(HundredHeld(), e, m, 60, ToMultiversX, 0).Ok?
  {
  }

  lemma HundredHeldIsOverdrawn(m: Bytes)
    ensures var safe, minted := SafeOf(HundredHeld().onMvx, [m, m]), MintedOf(HundredHeld().onMvx, [m, m]);
            Pay(safe, minted, [m, m], [60, 60]).None?
  {
    var safe, minted := SafeOf(HundredHeld().onMvx, [m, m]), MintedOf(HundredHeld().onMvx, [m, m]);
    SumOfTwo(m, m, 60, 60, m);
    assert m in [m, m] && Balance(safe, m) == 100;
    PayIffCovered(safe, minted, [m, m], [60, 60]);
  }

  /** A deposit of 60 of the Ethereum token with last byte `token`. */
  function Sixty(token: byte, nonce: u64): Deposit {
    Deposit(nonce, [], [], ToAddress([token]), [9], 60, [])
  }

  lemma ListsOfTwo()
    ensures var arg := ListsOf([Sixty(1, 1), Sixty(2, 2)], ToMultiversX);
            && arg.ethTokens == [ToAddress([1]), ToAddress([2])]
            && arg.mvxTokens == [[9], [9]] && arg.amounts == [60, 60]
            && arg.ethTokens[0] != arg.ethTokens[1]
  {
    var arg := ListsOf([Sixty(1, 1), Sixty(2, 2)], ToMultiversX);
    assert ToAddress([1])[19] == 1 && ToAddress([2])[19] == 2;
    assert arg.ethTokens == [ToAddress([1]), ToAddress([2])];
    assert arg.mvxTokens == [[9], [9]] && arg.amounts == [60, 60];
  }

  lemma UniqueOfTwo(e1: Bytes, e2: Bytes)
    requires e1 != e2
    ensures UniqueTokens([e1, e2]) == [e1, e2]
  {
    assert [e1, e2][..1] == [e1] && UniqueTokens([e1]) == [e1];
  }

  /** A batch with two Ethereum tokens that stand for one MultiversX token, of which the safe holds enough for either
      but not for both: the check passes and the second payment fails. */
  lemma AmbiguousTokenIsOverdrawn()
    ensures var arg := ListsOf([Sixty(1, 1), Sixty(2, 2)], ToMultiversX);
            var ch := HundredHeld();
            && BV.WalksEnd(ch, 0) && Passes(ch, arg, 0)
            && Pay(SafeOf(ch.onMvx, arg.mvxTokens), MintedOf(ch.onMvx, arg.mvxTokens), arg.mvxTokens, arg.amounts).None?
  {
    ListsOfTwo();
    var e1, e2, m: Bytes := ToAddress([1]), ToAddress([2]), [9];
    UniqueOfTwo(e1, e2);
    SumOfTwo(e1, e2, 60, 60, e1);
    SumOfTwo(e1, e2, 60, 60, e2);
    var converted := Converted([e1, e2], [m, m]);
    HundredHeldPasses(e1, converted[0]);
    HundredHeldPasses(e2, converted[1]);
    HundredHeldIsOverdrawn(m);
  }
}
