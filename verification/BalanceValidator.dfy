/** The check that the two chains agree on how much of a token the bridge has moved, before a batch is let through. */
module BalanceValidator {
  import opened Common
  import opened Batches
  import opened BatchLists

  datatype Error =
    | QueryFailed
    | InvalidDirection
    | InsufficientBalance
    | InvalidSetup
    | NegativeAmount
    | BalanceMismatch

  datatype BatchAnswer = Found(batch: Batch) | NoBatchAvailable | BatchQueryFailed

  /** What one chain's client answers about a token; `None` is a failed query. */
  datatype TokenAnswers = TokenAnswers(
    isMintBurn: Option<bool>, isNative: Option<bool>, safeBalance: Option<int>,
    total: Option<int>, minted: Option<int>, burned: Option<int>)

  /** The answers of both clients for the duration of one check. */
  datatype Clients = Clients(
    onEth: Bytes -> TokenAnswers,
    onMvx: Bytes -> TokenAnswers,
    lastMvxBatchId: Option<u64>,
    mvxBatch: u64 -> BatchAnswer,
    executedOnEth: u64 -> Option<bool>,
    lastExecutedEthBatchId: Option<u64>,
    ethBatch: u64 -> Option<Batch>)

  // -------------------------------------------------------- the two walks

  function TokenTotal(deposits: seq<Deposit>, token: Bytes): nat {
    if deposits == [] then 0
    else
      var d := deposits[|deposits| - 1];
      TokenTotal(deposits[..|deposits| - 1], token) + if d.sourceToken == token then d.amount else 0
  }

  method GetTotalAmountFromBatch(batch: Batch, token: Bytes) returns (amount: nat)
    ensures amount == TokenTotal(batch.deposits, token)
  {
    amount := 0;
    for k := 0 to |batch.deposits|
      invariant amount == TokenTotal(batch.deposits[..k], token)
    {
      if batch.deposits[k].sourceToken == token {
        amount := amount + batch.deposits[k].amount;
      }
      assert batch.deposits[..k + 1][..k] == batch.deposits[..k];
    }
    assert batch.deposits[..|batch.deposits|] == batch.deposits;
  }

  /** What a partial sum turns the rest of a walk into. */
  function Plus(amount: nat, rest: Result<nat, Error>): Result<nat, Error> {
    match rest
    case Ok(n) => Ok(amount + n)
    case Err(e) => Err(e)
  }

  /** Downwards from `id` until a batch is missing or was executed on Ethereum. */
  function MvxWalk(ch: Clients, token: Bytes, id: u64): Result<nat, Error>
    requires ch.mvxBatch(0).NoBatchAvailable?
  {
    match ch.mvxBatch(id)
    case NoBatchAvailable => Ok(0)
    case BatchQueryFailed => Err(QueryFailed)
    case Found(batch) =>
      match ch.executedOnEth(batch.id)
      case None => Err(QueryFailed)
      case Some(executed) =>
        if executed then Ok(0) else Plus(TokenTotal(batch.deposits, token), MvxWalk(ch, token, id - 1))
  }

  /** The walk upwards ends after `id`: the next batch cannot be fetched or is not there. */
  predicate EndsAfter(ch: Clients, id: u64) {
    match ch.ethBatch(Succ(id))
    case None => true
    case Some(batch) => batch.id != Succ(id) || batch.deposits == []
  }

  /** Upwards from the batch after `id`, whether or not the batches are final. */
  function EthWalk(ch: Clients, token: Bytes, id: u64, end: u64): Result<nat, Error>
    requires id <= end && EndsAfter(ch, end)
    decreases end - id
  {
    if EndsAfter(ch, id) then if ch.ethBatch(Succ(id)).None? then Err(QueryFailed) else Ok(0)
    else Plus(TokenTotal(ch.ethBatch(Succ(id)).value.deposits, token), EthWalk(ch, token, id + 1, end))
  }

  /** Ethereum does not have batches for ever. */
  ghost predicate UpwardEnds(ch: Clients, end: u64) {
    EndsAfter(ch, end) && (ch.lastExecutedEthBatchId.Some? ==> ch.lastExecutedEthBatchId.value <= end)
  }

  /** Nor does MultiversX, where batch IDs start at one. */
  ghost predicate WalksEnd(ch: Clients, end: u64) {
    ch.mvxBatch(0).NoBatchAvailable? && UpwardEnds(ch, end)
  }

  method PendingMvxAmount(ch: Clients, token: Bytes) returns (r: Result<nat, Error>)
    requires ch.mvxBatch(0).NoBatchAvailable?
    ensures r == if ch.lastMvxBatchId.None? then Err(QueryFailed) else MvxWalk(ch, token, ch.lastMvxBatchId.value)
  {
    if ch.lastMvxBatchId.None? {
      return Err(QueryFailed);
    }
    var batchId, amount := ch.lastMvxBatchId.value, 0;
    while true
      invariant MvxWalk(ch, token, ch.lastMvxBatchId.value) == Plus(amount, MvxWalk(ch, token, batchId))
      decreases batchId
    {
      var answer := ch.mvxBatch(batchId);
      if answer.NoBatchAvailable? {
        return Ok(amount);
      }
      if answer.BatchQueryFailed? {
        return Err(QueryFailed);
      }
      var wasExecuted := ch.executedOnEth(answer.batch.id);
      if wasExecuted.None? {
        return Err(QueryFailed);
      }
      if wasExecuted.value {
        return Ok(amount);
      }
      var amountFromBatch := GetTotalAmountFromBatch(answer.batch, token);
      amount := amount + amountFromBatch;
      batchId := batchId - 1;
    }
  }

  method PendingEthAmount(ch: Clients, token: Bytes, ghost end: u64) returns (r: Result<nat, Error>)
    requires UpwardEnds(ch, end)
    ensures r == if ch.lastExecutedEthBatchId.None? then Err(QueryFailed)
                 else EthWalk(ch, token, ch.lastExecutedEthBatchId.value, end)
  {
    if ch.lastExecutedEthBatchId.None? {
      return Err(QueryFailed);
    }
    var batchId, amount := ch.lastExecutedEthBatchId.value, 0;
    while true
      invariant batchId <= end
      invariant EthWalk(ch, token, ch.lastExecutedEthBatchId.value, end) ==
                Plus(amount, EthWalk(ch, token, batchId, end))
      decreases end - batchId
    {
      var answer := ch.ethBatch(Succ(batchId));
      if answer.None? {
        return Err(QueryFailed);
      }
      var batch := answer.value;
      var isBatchInvalid := batch.id != Succ(batchId) || |batch.deposits| == 0;
      if isBatchInvalid {
        return Ok(amount);
      }
      var amountFromBatch := GetTotalAmountFromBatch(batch, token);
      amount := amount + amountFromBatch;
      batchId := Succ(batchId);
    }
  }

  // ---------------------------------------------------------- the check

  /** The amount a chain vouches for, once what is pending from it is taken out again. */
  function Corrected(t: TokenAnswers, isMintBurn: bool, isNative: bool,
                     pending: Result<nat, Error>): Result<int, Error>
  {
    var p :- pending;
    if !isMintBurn then if t.total.None? then Err(QueryFailed) else Ok(t.total.value - p)
    else if t.burned.None? || t.minted.None? then Err(QueryFailed)
    else
      var burned := t.burned.value - p;
      var amount := if isNative then burned - t.minted.value else t.minted.value - burned;
      if amount < 0 then Err(NegativeAmount) else Ok(amount)
  }

  /** CheckRequiredBalance of either client: tokens that are minted on demand need no balance. */
  function CheckRequired(t: TokenAnswers, amount: int): Result<(), Error> {
    match t.isMintBurn
    case None => Err(QueryFailed)
    case Some(true) => Ok(())
    case Some(false) =>
      if t.safeBalance.None? then Err(QueryFailed)
      else if amount > t.safeBalance.value then Err(InsufficientBalance)
      else Ok(())
  }

  function CheckDirection(ch: Clients, e: Bytes, m: Bytes, amount: int, direction: Direction): Result<(), Error> {
    match direction
    case FromMultiversX => CheckRequired(ch.onEth(e), amount)
    case ToMultiversX => CheckRequired(ch.onMvx(m), amount)
    case OtherDirection(_) => Err(InvalidDirection)
  }

  predicate LegalSetup(ethMintBurn: bool, ethNative: bool, mvxMintBurn: bool, mvxNative: bool) {
    (ethNative || ethMintBurn) && (mvxNative || mvxMintBurn) && ethNative != mvxNative
  }

  ghost function EthAmount(ch: Clients, e: Bytes, end: u64): Result<int, Error>
    requires WalksEnd(ch, end)
    requires ch.onEth(e).isMintBurn.Some? && ch.onEth(e).isNative.Some?
  {
    Corrected(ch.onEth(e), ch.onEth(e).isMintBurn.value, ch.onEth(e).isNative.value,
              if ch.lastExecutedEthBatchId.None? then Err(QueryFailed)
              else EthWalk(ch, e, ch.lastExecutedEthBatchId.value, end))
  }

  ghost function MvxAmount(ch: Clients, m: Bytes): Result<int, Error>
    requires ch.mvxBatch(0).NoBatchAvailable?
    requires ch.onMvx(m).isMintBurn.Some? && ch.onMvx(m).isNative.Some?
  {
    Corrected(ch.onMvx(m), ch.onMvx(m).isMintBurn.value, ch.onMvx(m).isNative.value,
              if ch.lastMvxBatchId.None? then Err(QueryFailed) else MvxWalk(ch, m, ch.lastMvxBatchId.value))
  }

  ghost predicate FlagsKnown(ch: Clients, e: Bytes, m: Bytes) {
    && ch.onEth(e).isMintBurn.Some? && ch.onMvx(m).isMintBurn.Some?
    && ch.onEth(e).isNative.Some? && ch.onMvx(m).isNative.Some?
  }

  /** The verdict on a token pair: a chain of checks, the first failing one deciding. */
  ghost function Verdict(ch: Clients, e: Bytes, m: Bytes, amount: int, direction: Direction,
                         end: u64): Result<(), Error>
    requires WalksEnd(ch, end)
  {
    var _ :- CheckDirection(ch, e, m, amount, direction);
    if !FlagsKnown(ch, e, m) then Err(QueryFailed)
    else if !LegalSetup(ch.onEth(e).isMintBurn.value, ch.onEth(e).isNative.value,
                        ch.onMvx(m).isMintBurn.value, ch.onMvx(m).isNative.value) then Err(InvalidSetup)
    else
      var ethAmount :- EthAmount(ch, e, end);
      var mvxAmount :- MvxAmount(ch, m);
      if ethAmount != mvxAmount then Err(BalanceMismatch) else Ok(())
  }

  method ComputeAmount(t: TokenAnswers, isMintBurn: bool, isNative: bool, pending: Result<nat, Error>)
    returns (r: Result<int, Error>)
    ensures r == Corrected(t, isMintBurn, isNative, pending)
  {
    if pending.Err? {
      return Err(pending.error);
    }
    if !isMintBurn {
      if t.total.None? {
        return Err(QueryFailed);
      }
      return Ok(t.total.value - pending.value);
    }
    if t.burned.None? || t.minted.None? {
      return Err(QueryFailed);
    }
    var burnBalances: int := t.burned.value;
    burnBalances := burnBalances - pending.value;
    var amount: int;
    if isNative {
      amount := burnBalances - t.minted.value;
    } else {
      amount := t.minted.value - burnBalances;
    }
    if amount < 0 {
      return Err(NegativeAmount);
    }
    return Ok(amount);
  }

  method CheckToken(ch: Clients, e: Bytes, m: Bytes, amount: int, direction: Direction, ghost end: u64)
    returns (r: Result<(), Error>)
    requires WalksEnd(ch, end)
    ensures r == Verdict(ch, e, m, amount, direction, end)
  {
    r := CheckDirection(ch, e, m, amount, direction);
    if r.Err? {
      return;
    }
    var ethMintBurn, mvxMintBurn := ch.onEth(e).isMintBurn, ch.onMvx(m).isMintBurn;
    var ethNative, mvxNative := ch.onEth(e).isNative, ch.onMvx(m).isNative;
    if ethMintBurn.None? || mvxMintBurn.None? || ethNative.None? || mvxNative.None? {
      return Err(QueryFailed);
    }
    if !ethNative.value && !ethMintBurn.value {
      return Err(InvalidSetup);
    }
    if !mvxNative.value && !mvxMintBurn.value {
      return Err(InvalidSetup);
    }
    if ethNative.value == mvxNative.value {
      return Err(InvalidSetup);
    }
    var ethPending := PendingEthAmount(ch, e, end);
    var ethAmount := ComputeAmount(ch.onEth(e), ethMintBurn.value, ethNative.value, ethPending);
    if ethAmount.Err? {
      return Err(ethAmount.error);
    }
    var mvxPending := PendingMvxAmount(ch, m);
    var mvxAmount := ComputeAmount(ch.onMvx(m), mvxMintBurn.value, mvxNative.value, mvxPending);
    if mvxAmount.Err? {
      return Err(mvxAmount.error);
    }
    if ethAmount.value != mvxAmount.value {
      return Err(BalanceMismatch);
    }
    r := Ok(());
  }

  // --------------------------------- when the downward walk is exact

  /** Pending on the contract's own account: the batch exists and Ethereum has not executed it. */
  ghost predicate IsPending(ch: Clients, id: u64) {
    ch.mvxBatch(id).Found? && ch.executedOnEth(ch.mvxBatch(id).batch.id) == Some(false)
  }

  ghost function PendingAt(ch: Clients, token: Bytes, id: u64): nat {
    if IsPending(ch, id) then TokenTotal(ch.mvxBatch(id).batch.deposits, token) else 0
  }

  /** The sum over every pending batch up to `id`, with or without gaps between them. */
  ghost function AllPending(ch: Clients, token: Bytes, id: u64): nat {
    PendingAt(ch, token, id) + if id == 0 then 0 else AllPending(ch, token, id - 1)
  }

  ghost predicate Answered(ch: Clients) {
    forall id: u64 :: !ch.mvxBatch(id).BatchQueryFailed?
                      && (ch.mvxBatch(id).Found? ==> ch.executedOnEth(ch.mvxBatch(id).batch.id).Some?)
  }

  /** Every batch between `id` and `last` is pending. */
  ghost predicate UnbrokenUpTo(ch: Clients, id: u64, last: u64) {
    forall j: u64 :: id <= j <= last ==> IsPending(ch, j)
  }

  lemma {:induction false} NothingBelow(ch: Clients, token: Bytes, id: u64)
    ensures AllPending(ch, token, id) == 0 <==> forall i: u64 :: i <= id ==> PendingAt(ch, token, i) == 0
  {
    if id > 0 {
      NothingBelow(ch, token, id - 1);
    }
  }

  /** The walk never reports more than is pending, and reports all of it exactly when no batch holding the token is
      pending below a batch that is missing or executed. */
  lemma {:induction false} MvxWalkIsExactIff(ch: Clients, token: Bytes, last: u64)
    requires ch.mvxBatch(0).NoBatchAvailable? && Answered(ch)
    ensures MvxWalk(ch, token, last).Ok? && MvxWalk(ch, token, last).value <= AllPending(ch, token, last)
    ensures MvxWalk(ch, token, last) == Ok(AllPending(ch, token, last)) <==>
            forall i: u64 :: i <= last && PendingAt(ch, token, i) != 0 ==> UnbrokenUpTo(ch, i, last)
  {
    if IsPending(ch, last) {
      MvxWalkIsExactIff(ch, token, last - 1);
      forall i: u64 | i < last
        ensures UnbrokenUpTo(ch, i, last) <==> UnbrokenUpTo(ch, i, last - 1)
      {
      }
    } else {
      NothingBelow(ch, token, last);
      forall i: u64 | i <= last
        ensures !UnbrokenUpTo(ch, i, last)
      {
        assert !IsPending(ch, last);
      }
    }
  }

  /** A batch with the token that is pending below an executed one is not found. */
  lemma PendingUnderExecutedIsMissed() returns (ch: Clients, token: Bytes, last: u64)
    ensures ch.mvxBatch(0).NoBatchAvailable? && Answered(ch)
    ensures MvxWalk(ch, token, last) == Ok(0) && AllPending(ch, token, last) == 7
  {
    token, last := [1], 2;
    var d := Deposit(1, [], [], token, [], 7, []);
    ch := Clients((e: Bytes) => NoAnswers(), (m: Bytes) => NoAnswers(), Some(2),
                  (id: u64) => if id == 1 || id == 2 then Found(Batch(id, [d], [])) else NoBatchAvailable,
                  (id: u64) => Some(id == 2), None, (id: u64) => None);
    assert TokenTotal([d], token) == 7;
    assert AllPending(ch, token, 0) == 0;
    assert AllPending(ch, token, 1) == 7;
  }

  function NoAnswers(): TokenAnswers {
    TokenAnswers(None, None, None, None, None, None)
  }

  // ----------------------------------- when the upward walk is exact

  /** A batch that the upward walk would count. */
  ghost predicate IsThere(ch: Clients, id: u64) {
    ch.ethBatch(id).Some? && ch.ethBatch(id).value.id == id && ch.ethBatch(id).value.deposits != []
  }

  ghost function ThereAt(ch: Clients, token: Bytes, id: u64): nat {
    if IsThere(ch, id) then TokenTotal(ch.ethBatch(id).value.deposits, token) else 0
  }

  /** The sum over every batch above `id` up to `top`, with or without gaps between them. */
  ghost function AllThere(ch: Clients, token: Bytes, id: u64, top: u64): nat
    decreases top - id
  {
    if id >= top then 0 else ThereAt(ch, token, id + 1) + AllThere(ch, token, id + 1, top)
  }

  /** Every batch above `id` up to `last` is there. */
  ghost predicate UnbrokenFrom(ch: Clients, id: u64, last: u64) {
    forall j: u64 :: id < j <= last ==> IsThere(ch, j)
  }

  lemma {:induction false} NothingAbove(ch: Clients, token: Bytes, id: u64, top: u64)
    ensures AllThere(ch, token, id, top) == 0 <==> forall i: u64 :: id < i <= top ==> ThereAt(ch, token, i) == 0
    decreases top - id
  {
    if id < top {
      NothingAbove(ch, token, id + 1, top);
    }
  }

  /** When every query is answered the upward walk never reports more than there is above `id`, and reports all of it
      exactly when no batch holding the token lies above a gap. */
  lemma {:induction false} EthWalkIsExactIff(ch: Clients, token: Bytes, id: u64, end: u64, top: u64)
    requires id <= end <= top < U64 - 1 && EndsAfter(ch, end)
    requires forall j: u64 :: ch.ethBatch(j).Some?
    ensures EthWalk(ch, token, id, end).Ok? && EthWalk(ch, token, id, end).value <= AllThere(ch, token, id, top)
    ensures EthWalk(ch, token, id, end) == Ok(AllThere(ch, token, id, top)) <==>
            forall i: u64 :: id < i <= top && ThereAt(ch, token, i) != 0 ==> UnbrokenFrom(ch, id, i)
    decreases end - id
  {
    assert Succ(id) == id + 1;
    if EndsAfter(ch, id) {
      NothingAbove(ch, token, id, top);
      forall i: u64 | id < i <= top ensures !UnbrokenFrom(ch, id, i) {
        assert !IsThere(ch, id + 1);
      }
    } else {
      EthWalkIsExactIff(ch, token, id + 1, end, top);
      forall i: u64 | id + 1 < i <= top ensures UnbrokenFrom(ch, id, i) <==> UnbrokenFrom(ch, id + 1, i) {
        assert IsThere(ch, id + 1);
      }
    }
  }

  /** A batch with the token above an ID that has no batch is not found. */
  lemma BatchAboveGapIsMissed() returns (ch: Clients, token: Bytes)
    ensures EndsAfter(ch, 0) && forall j: u64 :: ch.ethBatch(j).Some?
    ensures EthWalk(ch, token, 0, 0) == Ok(0) && AllThere(ch, token, 0, 2) == 7
  {
    token := [1];
    var d := Deposit(1, [], [], token, [], 7, []);
    ch := Clients((e: Bytes) => NoAnswers(), (m: Bytes) => NoAnswers(), None, (id: u64) => NoBatchAvailable,
                  (id: u64) => None, Some(0), (id: u64) => Some(Batch(id, if id == 2 then [d] else [], [])));
    assert TokenTotal([d], token) == 7;
    assert AllThere(ch, token, 2, 2) == 0;
    assert AllThere(ch, token, 1, 2) == 7;
  }
}
