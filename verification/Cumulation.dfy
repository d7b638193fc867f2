/** Adding up the transfers of a batch per token, on big integers that are updated in place. */
module Cumulation {
  import opened Common

  /** A `*big.Int`: adding to it changes it for everyone who holds it. */
  class BigInt {
    var v: int

    constructor (v: int)
      ensures this.v == v
    {
      this.v := v;
    }

    method Add(other: BigInt)
      modifies this
      ensures v == old(v) + old(other.v)
    {
      v := v + other.v;
    }
  }

  ghost function Values(amounts: seq<BigInt>): seq<int>
    reads Elements(amounts)
  {
    seq(|amounts|, i requires 0 <= i < |amounts| reads Elements(amounts) => amounts[i].v)
  }

  // -------------------------------------------------------- specification

  /** The distinct tokens, in the order of their first occurrence. */
  function UniqueTokens(tokens: seq<Bytes>): seq<Bytes> {
    if tokens == [] then []
    else
      var init, last := tokens[..|tokens| - 1], tokens[|tokens| - 1];
      if last in init then UniqueTokens(init) else UniqueTokens(init) + [last]
  }

  /** For each distinct token what stands beside its first occurrence. */
  function Converted(tokens: seq<Bytes>, converted: seq<Bytes>): (r: seq<Bytes>)
    requires |tokens| == |converted|
    ensures |r| == |UniqueTokens(tokens)|
  {
    if tokens == [] then []
    else
      var n := |tokens| - 1;
      var init := Converted(tokens[..n], converted[..n]);
      if tokens[n] in tokens[..n] then init else init + [converted[n]]
  }

  /** The sum of the amounts that go with a token. */
  function SumFor(tokens: seq<Bytes>, amounts: seq<int>, token: Bytes): int
    requires |tokens| == |amounts|
  {
    if tokens == [] then 0
    else
      var n := |tokens| - 1;
      SumFor(tokens[..n], amounts[..n], token) + if tokens[n] == token then amounts[n] else 0
  }

  function Total(amounts: seq<int>): int {
    if amounts == [] then 0 else Total(amounts[..|amounts| - 1]) + amounts[|amounts| - 1]
  }

  // ------------------------------------------------------- implementation

  ghost predicate Accumulates(cumulated: map<Bytes, BigInt>, tokens: seq<Bytes>, amounts: seq<int>)
    reads cumulated.Values
    requires |tokens| == |amounts|
  {
    && cumulated.Keys == Elements(tokens)
    && (forall t :: t in cumulated ==> cumulated[t].v == SumFor(tokens, amounts, t))
    && (forall t, u :: t in cumulated && u in cumulated && t != u ==> cumulated[t] != cumulated[u])
  }

  /** The loop body of getCumulatedTransfers: adds in place to the token's own number, or starts a new one. */
  method Record(cumulated: map<Bytes, BigInt>, token: Bytes, amount: BigInt, ghost tokens: seq<Bytes>,
                ghost values: seq<int>)
    returns (updated: map<Bytes, BigInt>, isNew: bool)
    requires |tokens| == |values| && Accumulates(cumulated, tokens, values)
    requires amount !in cumulated.Values
    modifies cumulated.Values
    ensures isNew == (token !in tokens)
    ensures fresh(updated.Values - cumulated.Values)
    ensures Accumulates(updated, tokens + [token], values + [amount.v])
  {
    ghost var tokens', values' := tokens + [token], values + [amount.v];
    Step(tokens', values', |tokens|);
    assert tokens'[..|tokens|] == tokens && values'[..|tokens|] == values;
    assert tokens'[..|tokens| + 1] == tokens' && values'[..|tokens| + 1] == values';
    assert Elements(tokens') == Elements(tokens) + {token};
    isNew := token !in cumulated;
    if isNew {
      var number := new BigInt(amount.v);
      updated := cumulated[token := number];
    } else {
      updated := cumulated;
      cumulated[token].Add(amount);
    }
  }

  /** getCumulatedTransfers. There is no modifies clause: not one of the given amounts changes. */
  method GetCumulatedTransfers(ethTokens: seq<Bytes>, mvxTokens: seq<Bytes>, amounts: seq<BigInt>)
    returns (uniqueTokens: seq<Bytes>, uniqueConvertedTokens: seq<Bytes>, finalAmounts: seq<BigInt>)
    requires |ethTokens| == |mvxTokens| == |amounts|
    ensures uniqueTokens == UniqueTokens(ethTokens)
    ensures uniqueConvertedTokens == Converted(ethTokens, mvxTokens)
    ensures |finalAmounts| == |uniqueTokens|
    ensures forall i :: 0 <= i < |uniqueTokens| ==>
              finalAmounts[i].v == SumFor(ethTokens, Values(amounts), uniqueTokens[i])
    ensures fresh(Elements(finalAmounts)) && Distinct(finalAmounts)
  {
    var cumulatedAmounts: map<Bytes, BigInt> := map[];
    uniqueTokens, uniqueConvertedTokens := [], [];
    ghost var values := Values(amounts);
    for k := 0 to |ethTokens|
      invariant uniqueTokens == UniqueTokens(ethTokens[..k])
      invariant uniqueConvertedTokens == Converted(ethTokens[..k], mvxTokens[..k])
      invariant fresh(cumulatedAmounts.Values)
      invariant Accumulates(cumulatedAmounts, ethTokens[..k], values[..k])
    {
      assert ethTokens[..k + 1] == ethTokens[..k] + [ethTokens[k]] && values[..k + 1] == values[..k] + [values[k]];
      assert ethTokens[..k + 1][..k] == ethTokens[..k] && mvxTokens[..k + 1][..k] == mvxTokens[..k];
      var isNew;
      cumulatedAmounts, isNew := Record(cumulatedAmounts, ethTokens[k], amounts[k], ethTokens[..k], values[..k]);
      if isNew {
        uniqueTokens := uniqueTokens + [ethTokens[k]];
        uniqueConvertedTokens := uniqueConvertedTokens + [mvxTokens[k]];
      }
    }
    assert ethTokens[..|ethTokens|] == ethTokens && values[..|ethTokens|] == values;
    assert mvxTokens[..|ethTokens|] == mvxTokens;
    finalAmounts := Collect(cumulatedAmounts, uniqueTokens, ethTokens, values);
    assert Values(amounts) == values;
  }

  /** The last loop of getCumulatedTransfers. */
  method Collect(cumulated: map<Bytes, BigInt>, unique: seq<Bytes>, ghost tokens: seq<Bytes>, ghost values: seq<int>)
    returns (finalAmounts: seq<BigInt>)
    requires |tokens| == |values| && Accumulates(cumulated, tokens, values)
    requires unique == UniqueTokens(tokens)
    ensures |finalAmounts| == |unique| && Distinct(finalAmounts) && Elements(finalAmounts) <= cumulated.Values
    ensures forall i :: 0 <= i < |unique| ==> finalAmounts[i].v == SumFor(tokens, values, unique[i])
  {
    UniqueTokensAreDistinct(tokens);
    assert forall i :: 0 <= i < |unique| ==> unique[i] in Elements(unique);
    finalAmounts := [];
    for k := 0 to |unique|
      invariant |finalAmounts| == k
      invariant forall i :: 0 <= i < k ==> finalAmounts[i] == cumulated[unique[i]]
    {
      finalAmounts := finalAmounts + [cumulated[unique[k]]];
    }
  }

  /** One more transfer: its token's sum grows by its amount, the others stay. */
  lemma Step(tokens: seq<Bytes>, amounts: seq<int>, k: nat)
    requires |tokens| == |amounts| && k < |tokens|
    ensures tokens[..k + 1] == tokens[..k] + [tokens[k]]
    ensures forall t :: SumFor(tokens[..k + 1], amounts[..k + 1], t) ==
                        SumFor(tokens[..k], amounts[..k], t) + if tokens[k] == t then amounts[k] else 0
    ensures UniqueTokens(tokens[..k + 1]) ==
            if tokens[k] in tokens[..k] then UniqueTokens(tokens[..k]) else UniqueTokens(tokens[..k]) + [tokens[k]]
    ensures tokens[k] !in tokens[..k] ==> SumFor(tokens[..k], amounts[..k], tokens[k]) == 0
  {
    assert tokens[..k + 1][..k] == tokens[..k] && amounts[..k + 1][..k] == amounts[..k];
    AbsentSumsToZero(tokens[..k], amounts[..k], tokens[k]);
  }

  lemma {:induction false} AbsentSumsToZero(tokens: seq<Bytes>, amounts: seq<int>, t: Bytes)
    requires |tokens| == |amounts|
    ensures t !in tokens ==> SumFor(tokens, amounts, t) == 0
  {
    if tokens != [] {
      AbsentSumsToZero(tokens[..|tokens| - 1], amounts[..|tokens| - 1], t);
    }
  }

  // ------------------------------------------------------------- theorems

  lemma {:induction false} UniqueTokensAreDistinct(tokens: seq<Bytes>)
    ensures Distinct(UniqueTokens(tokens))
    ensures Elements(UniqueTokens(tokens)) == Elements(tokens)
  {
    if tokens != [] {
      var init, last := tokens[..|tokens| - 1], tokens[|tokens| - 1];
      UniqueTokensAreDistinct(init);
      assert tokens == init + [last];
      assert last in UniqueTokens(init) <==> last in Elements(UniqueTokens(init));
      assert Elements(tokens) == Elements(init) + {last};
      if last !in init {
        assert Elements(UniqueTokens(init) + [last]) == Elements(UniqueTokens(init)) + {last};
      }
    }
  }

  /** A cumulated token and its converted form stand side by side somewhere in the batch. */
  lemma {:induction false} ConvertedStandsBeside(tokens: seq<Bytes>, converted: seq<Bytes>, i: nat) returns (k: nat)
    requires |tokens| == |converted| && i < |UniqueTokens(tokens)|
    ensures k < |tokens| && tokens[k] == UniqueTokens(tokens)[i] && converted[k] == Converted(tokens, converted)[i]
  {
    var n := |tokens| - 1;
    if i < |UniqueTokens(tokens[..n])| {
      k := ConvertedStandsBeside(tokens[..n], converted[..n], i);
    } else {
      k := n;
    }
  }

  /** The sums of the given tokens, added up. */
  function SumOver(us: seq<Bytes>, tokens: seq<Bytes>, amounts: seq<int>): int
    requires |tokens| == |amounts|
  {
    if us == [] then 0
    else SumOver(us[..|us| - 1], tokens, amounts) + SumFor(tokens, amounts, us[|us| - 1])
  }

  lemma {:induction false} SumOverStep(us: seq<Bytes>, tokens: seq<Bytes>, amounts: seq<int>)
    requires |tokens| == |amounts| && tokens != [] && Distinct(us)
    ensures var n := |tokens| - 1;
            SumOver(us, tokens, amounts) ==
            SumOver(us, tokens[..n], amounts[..n]) + if tokens[n] in us then amounts[n] else 0
  {
    if us != [] {
      var init, u := us[..|us| - 1], us[|us| - 1];
      SumOverStep(init, tokens, amounts);
      assert us == init + [u];
    }
  }

  /** Nothing is lost and nothing counted twice: the cumulated amounts add up to the given ones. */
  lemma {:induction false} CumulationConservesTotal(tokens: seq<Bytes>, amounts: seq<int>)
    requires |tokens| == |amounts|
    ensures SumOver(UniqueTokens(tokens), tokens, amounts) == Total(amounts)
  {
    if tokens != [] {
      var n := |tokens| - 1;
      var init, last := tokens[..n], tokens[n];
      var us := UniqueTokens(init);
      CumulationConservesTotal(init, amounts[..n]);
      UniqueTokensAreDistinct(init);
      assert last in us <==> last in Elements(us);
      SumOverStep(us, tokens, amounts);
      if last !in init {
        AbsentSumsToZero(init, amounts[..n], last);
        assert (us + [last])[..|us|] == us;
      }
    }
  }

  // ----------------------------------------- paying what was checked

  function Balance(balances: map<Bytes, nat>, token: Bytes): nat {
    if token in balances then balances[token] else 0
  }

  /** The safe pays the deposits one by one; tokens in `minted` are created instead. */
  function Pay(balances: map<Bytes, nat>, minted: set<Bytes>, tokens: seq<Bytes>,
               amounts: seq<nat>): Option<map<Bytes, nat>>
    requires |tokens| == |amounts|
  {
    if tokens == [] then Some(balances)
    else
      var n := |tokens| - 1;
      match Pay(balances, minted, tokens[..n], amounts[..n])
      case None => None
      case Some(left) =>
        if tokens[n] in minted then Some(left)
        else if amounts[n] <= Balance(left, tokens[n])
        then Some(left[tokens[n] := Balance(left, tokens[n]) - amounts[n]])
        else None
  }

  /** The cumulated amount of every token the safe pays out is covered. */
  ghost predicate Covered(balances: map<Bytes, nat>, minted: set<Bytes>, tokens: seq<Bytes>, amounts: seq<nat>)
    requires |tokens| == |amounts|
  {
    forall t :: t in tokens && t !in minted ==> SumFor(tokens, amounts, t) <= Balance(balances, t)
  }

  lemma CoveredStep(balances: map<Bytes, nat>, minted: set<Bytes>, tokens: seq<Bytes>, amounts: seq<nat>)
    requires |tokens| == |amounts| && tokens != []
    ensures var n := |tokens| - 1;
            Covered(balances, minted, tokens, amounts) <==>
            && Covered(balances, minted, tokens[..n], amounts[..n])
            && (tokens[n] in minted
                || SumFor(tokens[..n], amounts[..n], tokens[n]) + amounts[n] <= Balance(balances, tokens[n]))
  {
    var n := |tokens| - 1;
    assert tokens == tokens[..n] + [tokens[n]];
    if Covered(balances, minted, tokens, amounts) {
      forall t | t in tokens[..n] && t !in minted ensures SumFor(tokens[..n], amounts[..n], t) <= Balance(balances, t) {
        assert t in tokens;
      }
    }
  }

  /** Paying deposit by deposit goes through exactly when the cumulated amounts are covered, and then every balance has
      gone down by the cumulated amount: the check on the sums is neither too weak nor too strong for any prefix. */
  lemma {:induction false} PayIffCovered(
    balances: map<Bytes, nat>, minted: set<Bytes>, tokens: seq<Bytes>, amounts: seq<nat>)
    requires |tokens| == |amounts|
    ensures Pay(balances, minted, tokens, amounts).Some? <==> Covered(balances, minted, tokens, amounts)
    ensures Pay(balances, minted, tokens, amounts).Some? ==>
              forall t :: Balance(Pay(balances, minted, tokens, amounts).value, t) ==
                          Balance(balances, t) - if t in minted then 0 else SumFor(tokens, amounts, t)
  {
    if tokens != [] {
      var n := |tokens| - 1;
      PayIffCovered(balances, minted, tokens[..n], amounts[..n]);
      CoveredStep(balances, minted, tokens, amounts);
    }
  }
}
