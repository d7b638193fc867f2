/**
 The books of the two chains: every deposit locks or burns on its own chain and waits in a batch, every executed batch
 unlocks or mints on the other one. Transfers are not refused and the contracts take no fee.
 */
module Ledger {
  import opened Common
  import opened Batches
  import opened BatchLists
  import BV = BalanceValidator

  datatype Chain = Eth | Mvx {
    function Other(): Chain {
      if Eth? then Mvx else Eth
    }
  }

  /** Which tokens stand for each other, and how each chain treats its own. */
  datatype Registry = Registry(
    pairs: set<(Bytes, Bytes)>, mintBurn: (Chain, Bytes) -> bool, native: (Chain, Bytes) -> bool)

  datatype Side = Side(
    locked: map<Bytes, int>, minted: map<Bytes, int>, burned: map<Bytes, int>,
    batches: seq<seq<Deposit>>, executed: nat)

  /** `executed` counts the batches of a chain that were executed on the other one. */
  datatype Books = Books(eth: Side, mvx: Side) {
    function Of(c: Chain): Side {
      if c.Eth? then eth else mvx
    }

    function With(c: Chain, side: Side): Books {
      if c.Eth? then this.(eth := side) else this.(mvx := side)
    }
  }

  function Get(m: map<Bytes, int>, token: Bytes): int {
    if token in m then m[token] else 0
  }

  /** Token `s` of chain `c` and token `d` of the other chain are the same asset. */
  predicate Paired(reg: Registry, c: Chain, s: Bytes, d: Bytes) {
    if c.Eth? then (s, d) in reg.pairs else (d, s) in reg.pairs
  }

  /** Pairing is one to one, and each asset is native on exactly one chain, wrapped by mint and burn on the other. */
  ghost predicate LegalRegistry(reg: Registry) {
    && (forall c, s, d, d' :: Paired(reg, c, s, d) && Paired(reg, c, s, d') ==> d == d')
    && (forall c, s, d :: Paired(reg, c, s, d) ==>
          && reg.native(c, s) != reg.native(c.Other(), d)
          && (reg.native(c, s) || reg.mintBurn(c, s)))
  }

  // ----------------------------------------------------------- bookkeeping

  /** Registering a deposit: burnt or locked at once. */
  function Take(reg: Registry, c: Chain, side: Side, d: Deposit): Side {
    var t := d.sourceToken;
    if reg.mintBurn(c, t) then side.(burned := side.burned[t := Get(side.burned, t) + d.amount])
    else side.(locked := side.locked[t := Get(side.locked, t) + d.amount])
  }

  /** Paying a deposit of the other chain out: minted or unlocked. */
  function Give(reg: Registry, c: Chain, side: Side, d: Deposit): Side {
    var t := d.destinationToken;
    if reg.mintBurn(c, t) then side.(minted := side.minted[t := Get(side.minted, t) + d.amount])
    else side.(locked := side.locked[t := Get(side.locked, t) - d.amount])
  }

  function GiveAll(reg: Registry, c: Chain, side: Side, ds: seq<Deposit>): Side {
    if ds == [] then side else Give(reg, c, GiveAll(reg, c, side, ds[..|ds| - 1]), ds[|ds| - 1])
  }

  /** A deposit joins the last batch while that one is open, or opens the next. */
  function Enqueue(side: Side, d: Deposit, opensBatch: bool): Side {
    var n := |side.batches|;
    if opensBatch || n == 0 then side.(batches := side.batches + [[d]])
    else side.(batches := side.batches[n - 1 := side.batches[n - 1] + [d]])
  }

  datatype Event = Deposits(chain: Chain, deposit: Deposit, opensBatch: bool) | Executes(chain: Chain)

  /** Wrapped tokens can only be deposited if they exist; the last batch is open until it is executed. */
  ghost predicate Enabled(reg: Registry, b: Books, e: Event) {
    var side := b.Of(e.chain);
    match e
    case Deposits(c, d, opensBatch) =>
      && Paired(reg, c, d.sourceToken, d.destinationToken)
      && (!reg.native(c, d.sourceToken) ==>
            d.amount <= Get(side.minted, d.sourceToken) - Get(side.burned, d.sourceToken))
      && (opensBatch || side.executed < |side.batches|)
      && |side.batches| + 2 < U64
    case Executes(c) => side.executed < |side.batches|
  }

  ghost function Apply(reg: Registry, b: Books, e: Event): Books {
    match e
    case Deposits(c, d, opensBatch) => b.With(c, Enqueue(Take(reg, c, b.Of(c), d), d, opensBatch))
    case Executes(c) =>
      var source := b.Of(c);
      if source.executed >= |source.batches| then b
      else
        b.With(c, source.(executed := source.executed + 1))
         .With(c.Other(), GiveAll(reg, c.Other(), b.Of(c.Other()), source.batches[source.executed]))
  }

  // ------------------------------------------------------------- amounts

  function SumBatches(batches: seq<seq<Deposit>>, token: Bytes): nat {
    if batches == [] then 0
    else SumBatches(batches[..|batches| - 1], token) + BV.TokenTotal(batches[|batches| - 1], token)
  }

  /** What is on its way to the other chain. */
  function Pending(side: Side, token: Bytes): nat
    requires side.executed <= |side.batches|
  {
    SumBatches(side.batches[side.executed..], token)
  }

  /** The amount of the asset that a chain's books say is on the wrapped side, pending deposits taken out. */
  function Vouches(reg: Registry, c: Chain, side: Side, token: Bytes): int
    requires side.executed <= |side.batches|
  {
    var pending := Pending(side, token);
    if !reg.mintBurn(c, token) then Get(side.locked, token) - pending
    else if reg.native(c, token) then Get(side.burned, token) - pending - Get(side.minted, token)
    else Get(side.minted, token) - (Get(side.burned, token) - pending)
  }

  ghost predicate WellFormedSide(reg: Registry, c: Chain, side: Side) {
    && side.executed <= |side.batches|
    && |side.batches| + 1 < U64
    && (forall i :: 0 <= i < |side.batches| ==> side.batches[i] != [])
    && (forall i, j :: 0 <= i < |side.batches| && 0 <= j < |side.batches[i]| ==>
          Paired(reg, c, side.batches[i][j].sourceToken, side.batches[i][j].destinationToken))
  }

  ghost predicate WellFormed(reg: Registry, b: Books) {
    WellFormedSide(reg, Eth, b.eth) && WellFormedSide(reg, Mvx, b.mvx)
  }

  /** The two chains agree on an asset, and no more of its wrapped form was burnt than minted. */
  ghost predicate Agrees(reg: Registry, b: Books, c: Chain, s: Bytes, d: Bytes)
    requires WellFormed(reg, b)
  {
    && Vouches(reg, c, b.Of(c), s) == Vouches(reg, c.Other(), b.Of(c.Other()), d)
    && (!reg.native(c, s) ==> Get(b.Of(c).burned, s) <= Get(b.Of(c).minted, s))
  }

  ghost predicate Balanced(reg: Registry, b: Books) {
    && WellFormed(reg, b)
    && forall c, s, d :: Paired(reg, c, s, d) ==> Agrees(reg, b, c, s, d)
  }

  // ---------------------------------------------------- sums over batches

  lemma {:induction false} TotalOfConcat(a: seq<Deposit>, d: Deposit, token: Bytes)
    ensures BV.TokenTotal(a + [d], token) == BV.TokenTotal(a, token) + if d.sourceToken == token then d.amount else 0
  {
    assert (a + [d])[..|a|] == a;
  }

  lemma {:induction false} SumFromFront(b: seq<Deposit>, rest: seq<seq<Deposit>>, token: Bytes)
    ensures SumBatches([b] + rest, token) == BV.TokenTotal(b, token) + SumBatches(rest, token)
  {
    if rest == [] {
      assert [b] + rest == [b];
      assert [b][..0] == [];
    } else {
      var n := |rest| - 1;
      SumFromFront(b, rest[..n], token);
      assert ([b] + rest)[..n + 1] == [b] + rest[..n];
    }
  }

  lemma SumWithNewBatch(batches: seq<seq<Deposit>>, d: Deposit, token: Bytes)
    ensures SumBatches(batches + [[d]], token) ==
            SumBatches(batches, token) + if d.sourceToken == token then d.amount else 0
  {
    assert (batches + [[d]])[..|batches|] == batches;
    TotalOfConcat([], d, token);
    assert [] + [d] == [d];
  }

  lemma SumWithLongerBatch(batches: seq<seq<Deposit>>, d: Deposit, token: Bytes)
    requires batches != []
    ensures var k := |batches| - 1;
            SumBatches(batches[k := batches[k] + [d]], token) ==
            SumBatches(batches, token) + if d.sourceToken == token then d.amount else 0
  {
    var k := |batches| - 1;
    assert batches[k := batches[k] + [d]][..k] == batches[..k];
    TotalOfConcat(batches[k], d, token);
  }

  lemma DropOfAppended<T>(s: seq<T>, x: T, k: nat)
    requires k <= |s|
    ensures (s + [x])[k..] == s[k..] + [x]
  {
  }

  lemma DropOfUpdated<T>(s: seq<T>, x: T, k: nat)
    requires k < |s|
    ensures s[|s| - 1 := x][k..] == s[k..][|s| - 1 - k := x]
  {
  }

  /** A queued deposit is pending. */
  lemma EnqueueAddsToPending(side: Side, d: Deposit, opensBatch: bool, token: Bytes)
    requires side.executed <= |side.batches| && (opensBatch || side.executed < |side.batches|)
    ensures var next := Enqueue(side, d, opensBatch);
            && next.executed <= |next.batches|
            && Pending(next, token) == Pending(side, token) + if d.sourceToken == token then d.amount else 0
  {
    var open, n := side.batches[side.executed..], |side.batches|;
    if opensBatch || n == 0 {
      DropOfAppended(side.batches, [d], side.executed);
      SumWithNewBatch(open, d, token);
    } else {
      DropOfUpdated(side.batches, side.batches[n - 1] + [d], side.executed);
      SumWithLongerBatch(open, d, token);
    }
  }

  /** An executed batch is no longer pending. */
  lemma ExecuteTakesFromPending(side: Side, token: Bytes)
    requires side.executed < |side.batches|
    ensures Pending(side, token) ==
            BV.TokenTotal(side.batches[side.executed], token) + Pending(side.(executed := side.executed + 1), token)
  {
    SumStep(side.batches, token, side.executed);
  }

  function DestinationTotal(ds: seq<Deposit>, token: Bytes): nat {
    if ds == [] then 0
    else
      DestinationTotal(ds[..|ds| - 1], token)
      + if ds[|ds| - 1].destinationToken == token then ds[|ds| - 1].amount else 0
  }

  /** Paying a batch out moves each token's books by its share of the batch, and nothing else. */
  lemma {:induction false} GiveAllMovesTotals(reg: Registry, c: Chain, side: Side, ds: seq<Deposit>, token: Bytes)
    ensures var next := GiveAll(reg, c, side, ds);
            var x := DestinationTotal(ds, token);
            && next.batches == side.batches && next.executed == side.executed && next.burned == side.burned
            && Get(next.minted, token) == Get(side.minted, token) + (if reg.mintBurn(c, token) then x else 0)
            && Get(next.locked, token) == Get(side.locked, token) - (if reg.mintBurn(c, token) then 0 else x)
  {
    if ds != [] {
      GiveAllMovesTotals(reg, c, side, ds[..|ds| - 1], token);
    }
  }

  /** Because pairing is one to one, a batch pays out of a token exactly what it took of its counterpart. */
  lemma {:induction false} BatchTotalsMatch(reg: Registry, c: Chain, ds: seq<Deposit>, s: Bytes, d: Bytes)
    requires LegalRegistry(reg) && Paired(reg, c, s, d)
    requires forall j :: 0 <= j < |ds| ==> Paired(reg, c, ds[j].sourceToken, ds[j].destinationToken)
    ensures DestinationTotal(ds, d) == BV.TokenTotal(ds, s)
  {
    if ds != [] {
      var n := |ds| - 1;
      BatchTotalsMatch(reg, c, ds[..n], s, d);
      assert Paired(reg, c, ds[n].sourceToken, ds[n].destinationToken);
      assert Paired(reg, c.Other(), d, s) && Paired(reg, c.Other(), ds[n].destinationToken, ds[n].sourceToken);
    }
  }

  // ------------------------------------------------- events keep balance

  predicate IsWrapped(reg: Registry, c: Chain, token: Bytes) {
    reg.mintBurn(c, token) && !reg.native(c, token)
  }

  lemma TakeAddsToBooks(reg: Registry, c: Chain, side: Side, d: Deposit, token: Bytes)
    ensures var next := Take(reg, c, side, d);
            var x: int := if token == d.sourceToken then d.amount else 0;
            && next.batches == side.batches && next.executed == side.executed && next.minted == side.minted
            && Get(next.burned, token) == Get(side.burned, token) + (if reg.mintBurn(c, token) then x else 0)
            && Get(next.locked, token) == Get(side.locked, token) + (if reg.mintBurn(c, token) then 0 else x)
  {
  }

  /** What a deposit adds to the books is pending, so the chain vouches for as much as before. */
  lemma DepositKeepsVouched(reg: Registry, c: Chain, side: Side, d: Deposit, opensBatch: bool, token: Bytes)
    requires side.executed <= |side.batches| && (opensBatch || side.executed < |side.batches|)
    ensures var next := Enqueue(Take(reg, c, side, d), d, opensBatch);
            && next.executed <= |next.batches|
            && Vouches(reg, c, next, token) == Vouches(reg, c, side, token)
            && next.minted == side.minted
            && Get(next.burned, token) ==
               Get(side.burned, token) + if token == d.sourceToken && reg.mintBurn(c, token) then d.amount else 0
  {
    TakeAddsToBooks(reg, c, side, d, token);
    EnqueueAddsToPending(Take(reg, c, side, d), d, opensBatch, token);
  }

  /** Executing a batch moves what its chain vouches for by the batch's total, up for native tokens. */
  lemma ExecuteMovesSource(reg: Registry, c: Chain, side: Side, token: Bytes)
    requires side.executed < |side.batches|
    ensures var x: int := BV.TokenTotal(side.batches[side.executed], token);
            Vouches(reg, c, side.(executed := side.executed + 1), token) ==
            Vouches(reg, c, side, token) + if IsWrapped(reg, c, token) then -x else x
  {
    ExecuteTakesFromPending(side, token);
  }

  /** Paying it out moves the other chain the same way. */
  lemma GiveMovesDestination(reg: Registry, c: Chain, side: Side, ds: seq<Deposit>, token: Bytes)
    requires side.executed <= |side.batches|
    ensures var next := GiveAll(reg, c, side, ds);
            var x: int := DestinationTotal(ds, token);
            && next.batches == side.batches && next.executed == side.executed && next.burned == side.burned
            && Get(next.minted, token) >= Get(side.minted, token)
            && Vouches(reg, c, next, token) == Vouches(reg, c, side, token) + if IsWrapped(reg, c, token) then x else -x
  {
    GiveAllMovesTotals(reg, c, side, ds, token);
  }

  lemma DepositKeepsWellFormed(reg: Registry, c: Chain, side: Side, d: Deposit, opensBatch: bool)
    requires WellFormedSide(reg, c, side) && |side.batches| + 2 < U64
    requires Paired(reg, c, d.sourceToken, d.destinationToken)
    ensures WellFormedSide(reg, c, Enqueue(Take(reg, c, side, d), d, opensBatch))
  {
  }

  lemma DepositKeepsAgreement(reg: Registry, b: Books, e: Event, c: Chain, s: Bytes, d: Bytes)
    requires LegalRegistry(reg) && Balanced(reg, b) && e.Deposits? && Enabled(reg, b, e)
    requires Paired(reg, c, s, d)
    ensures WellFormed(reg, Apply(reg, b, e)) && Agrees(reg, Apply(reg, b, e), c, s, d)
  {
    DepositKeepsWellFormed(reg, e.chain, b.Of(e.chain), e.deposit, e.opensBatch);
    DepositKeepsVouched(reg, e.chain, b.Of(e.chain), e.deposit, e.opensBatch, if e.chain == c then s else d);
    assert Agrees(reg, b, c, s, d);
  }

  lemma ExecuteKeepsWellFormed(reg: Registry, b: Books, c: Chain)
    requires WellFormed(reg, b) && b.Of(c).executed < |b.Of(c).batches|
    ensures WellFormed(reg, Apply(reg, b, Executes(c)))
  {
    GiveAllMovesTotals(reg, c.Other(), b.Of(c.Other()), b.Of(c).batches[b.Of(c).executed], []);
  }

  /** Both chains move by the same amount, in the same direction. */
  lemma ExecuteKeepsAgreement(reg: Registry, b: Books, c: Chain, s: Bytes, d: Bytes)
    requires LegalRegistry(reg) && Balanced(reg, b) && b.Of(c).executed < |b.Of(c).batches|
    requires Paired(reg, c, s, d)
    ensures WellFormed(reg, Apply(reg, b, Executes(c)))
    ensures Agrees(reg, Apply(reg, b, Executes(c)), c, s, d)
    ensures Agrees(reg, Apply(reg, b, Executes(c)), c.Other(), d, s)
  {
    var source, target := b.Of(c), b.Of(c.Other());
    var batch := source.batches[source.executed];
    ExecuteKeepsWellFormed(reg, b, c);
    ExecuteMovesSource(reg, c, source, s);
    GiveMovesDestination(reg, c.Other(), target, batch, d);
    BatchTotalsMatch(reg, c, batch, s, d);
    assert Paired(reg, c.Other(), d, s);
    assert Agrees(reg, b, c, s, d) && Agrees(reg, b, c.Other(), d, s);
  }

  lemma ApplyKeepsBalanced(reg: Registry, b: Books, e: Event)
    requires LegalRegistry(reg) && Balanced(reg, b) && Enabled(reg, b, e)
    ensures Balanced(reg, Apply(reg, b, e))
  {
    match e
    case Deposits(c, d, opensBatch) =>
      DepositKeepsAgreement(reg, b, e, c, d.sourceToken, d.destinationToken);
      forall c', s, t | Paired(reg, c', s, t) ensures Agrees(reg, Apply(reg, b, e), c', s, t) {
        DepositKeepsAgreement(reg, b, e, c', s, t);
      }
    case Executes(c) =>
      ExecuteKeepsWellFormed(reg, b, c);
      forall c', s, t | Paired(reg, c', s, t) ensures Agrees(reg, Apply(reg, b, e), c', s, t) {
        if c' == c {
          ExecuteKeepsAgreement(reg, b, c, s, t);
        } else {
          ExecuteKeepsAgreement(reg, b, c, t, s);
        }
      }
  }

  /** A run of the two ledgers from matching amounts, before anything is pending. */
  ghost predicate IsRun(reg: Registry, states: seq<Books>, events: seq<Event>) {
    && |states| == |events| + 1
    && states[0].eth.batches == [] && states[0].eth.executed == 0
    && states[0].mvx.batches == [] && states[0].mvx.executed == 0
    && Balanced(reg, states[0])
    && forall i :: 0 <= i < |events| ==>
         Enabled(reg, states[i], events[i]) && states[i + 1] == Apply(reg, states[i], events[i])
  }

  lemma {:induction false} AlwaysBalanced(reg: Registry, states: seq<Books>, events: seq<Event>, n: nat)
    requires LegalRegistry(reg) && IsRun(reg, states, events) && n <= |events|
    ensures Balanced(reg, states[n])
  {
    if n > 0 {
      AlwaysBalanced(reg, states, events, n - 1);
      ApplyKeepsBalanced(reg, states[n - 1], events[n - 1]);
    }
  }

  // ------------------------------------------- the validator on the books

  function TokenView(reg: Registry, c: Chain, side: Side, t: Bytes): BV.TokenAnswers {
    BV.TokenAnswers(Some(reg.mintBurn(c, t)), Some(reg.native(c, t)), Some(Get(side.locked, t)),
                    Some(Get(side.locked, t)), Some(Get(side.minted, t)), Some(Get(side.burned, t)))
  }

  /** Batch `id` is the `id`-th batch; asking Ethereum for one it does not have yields an empty one. */
  function EthBatch(side: Side, id: u64): Batch {
    if 1 <= id <= |side.batches| then Batch(id, side.batches[id - 1], []) else Batch(0, [], [])
  }

  function MvxBatch(side: Side, id: u64): BV.BatchAnswer {
    if 1 <= id <= |side.batches| then BV.Found(Batch(id, side.batches[id - 1], [])) else BV.NoBatchAvailable
  }

  /** What the two clients answer when the chains are in this state. */
  ghost function View(reg: Registry, b: Books): BV.Clients
    requires WellFormed(reg, b)
  {
    BV.Clients(
      t => TokenView(reg, Eth, b.eth, t), t => TokenView(reg, Mvx, b.mvx, t),
      Some(|b.mvx.batches|), (id: u64) => MvxBatch(b.mvx, id), (id: u64) => Some(id <= b.mvx.executed),
      Some(b.eth.executed), (id: u64) => Some(EthBatch(b.eth, id)))
  }

  lemma ViewEnds(reg: Registry, b: Books)
    requires WellFormed(reg, b)
    ensures BV.WalksEnd(View(reg, b), |b.eth.batches|)
  {
  }

  /** The batches a client shows, by ID. */
  ghost predicate ShowsEth(ch: BV.Clients, batches: seq<seq<Deposit>>) {
    && |batches| + 1 < U64
    && BV.EndsAfter(ch, |batches|) && ch.ethBatch(Succ(|batches|)).Some?
    && forall j :: 0 <= j < |batches| ==> ch.ethBatch(j + 1) == Some(Batch(j + 1, batches[j], [])) && batches[j] != []
  }

  ghost predicate ShowsMvx(ch: BV.Clients, batches: seq<seq<Deposit>>, executed: nat) {
    && |batches| < U64
    && ch.mvxBatch(0) == BV.NoBatchAvailable
    && (forall id: u64 :: ch.executedOnEth(id) == Some(id <= executed))
    && forall j :: 0 <= j < |batches| ==> ch.mvxBatch(j + 1) == BV.Found(Batch(j + 1, batches[j], []))
  }

  lemma {:induction false} EthWalkSumsPending(ch: BV.Clients, batches: seq<seq<Deposit>>, token: Bytes, id: u64)
    requires ShowsEth(ch, batches) && id <= |batches|
    ensures BV.EthWalk(ch, token, id, |batches|) == Ok(SumBatches(batches[id..], token))
    decreases |batches| - id
  {
    if id < |batches| {
      EthWalkSumsPending(ch, batches, token, id + 1);
      EthWalkStep(ch, batches, token, id);
      SumStep(batches, token, id);
    } else {
      assert batches[id..] == [];
    }
  }

  lemma EthWalkStep(ch: BV.Clients, batches: seq<seq<Deposit>>, token: Bytes, id: u64)
    requires ShowsEth(ch, batches) && id < |batches|
    ensures BV.EthWalk(ch, token, id, |batches|) ==
            BV.Plus(BV.TokenTotal(batches[id], token), BV.EthWalk(ch, token, id + 1, |batches|))
  {
    assert ch.ethBatch(id + 1) == Some(Batch(id + 1, batches[id], []));
    assert !BV.EndsAfter(ch, id);
  }

  lemma SumStep(batches: seq<seq<Deposit>>, token: Bytes, id: nat)
    requires id < |batches|
    ensures SumBatches(batches[id..], token) == BV.TokenTotal(batches[id], token) + SumBatches(batches[id + 1..], token)
  {
    assert batches[id..] == [batches[id]] + batches[id + 1..];
    SumFromFront(batches[id], batches[id + 1..], token);
  }

  lemma {:induction false} MvxWalkSumsPending(
    ch: BV.Clients, batches: seq<seq<Deposit>>, executed: nat, token: Bytes, id: u64)
    requires ShowsMvx(ch, batches, executed) && executed <= id <= |batches|
    ensures BV.MvxWalk(ch, token, id) == Ok(SumBatches(batches[executed..id], token))
  {
    if id > 0 {
      assert ch.mvxBatch((id - 1) + 1) == BV.Found(Batch(id, batches[id - 1], []));
    }
    if id > executed {
      MvxWalkSumsPending(ch, batches, executed, token, id - 1);
      assert batches[executed..id][..id - 1 - executed] == batches[executed..id - 1];
    }
  }

  lemma ViewShowsEth(reg: Registry, b: Books)
    requires WellFormed(reg, b)
    ensures ShowsEth(View(reg, b), b.eth.batches)
  {
  }

  /** Both walks find what is pending, so the validator computes what each chain vouches for. */
  lemma EthAmountIsVouched(reg: Registry, b: Books, e: Bytes)
    requires WellFormed(reg, b)
    ensures BV.WalksEnd(View(reg, b), |b.eth.batches|)
    ensures BV.EthAmount(View(reg, b), e, |b.eth.batches|) == Reported(reg, Eth, b.eth, e)
  {
    ViewShowsEth(reg, b);
    EthWalkSumsPending(View(reg, b), b.eth.batches, e, b.eth.executed);
  }

  lemma MvxAmountIsVouched(reg: Registry, b: Books, m: Bytes)
    requires WellFormed(reg, b)
    ensures BV.WalksEnd(View(reg, b), |b.eth.batches|)
    ensures BV.MvxAmount(View(reg, b), m) == Reported(reg, Mvx, b.mvx, m)
  {
    ViewEnds(reg, b);
    MvxWalkOfView(reg, b, m);
  }

  lemma ViewShowsMvx(reg: Registry, b: Books)
    requires WellFormed(reg, b)
    ensures ShowsMvx(View(reg, b), b.mvx.batches, b.mvx.executed)
  {
  }

  lemma MvxWalkOfView(reg: Registry, b: Books, m: Bytes)
    requires WellFormed(reg, b)
    ensures View(reg, b).mvxBatch(0).NoBatchAvailable?
    ensures BV.MvxWalk(View(reg, b), m, |b.mvx.batches|) == Ok(Pending(b.mvx, m))
  {
    ViewShowsMvx(reg, b);
    MvxWalkSumsPending(View(reg, b), b.mvx.batches, b.mvx.executed, m, |b.mvx.batches|);
    assert b.mvx.batches[b.mvx.executed..|b.mvx.batches|] == b.mvx.batches[b.mvx.executed..];
  }

  function Reported(reg: Registry, c: Chain, side: Side, token: Bytes): Result<int, BV.Error>
    requires side.executed <= |side.batches|
  {
    var amount := Vouches(reg, c, side, token);
    if reg.mintBurn(c, token) && amount < 0 then Err(BV.NegativeAmount) else Ok(amount)
  }

  /** The safe holds enough for the transfer, or creates the tokens. */
  predicate Enough(reg: Registry, b: Books, e: Bytes, m: Bytes, amount: int, direction: Direction) {
    match direction
    case FromMultiversX => reg.mintBurn(Eth, e) || amount <= Get(b.eth.locked, e)
    case ToMultiversX => reg.mintBurn(Mvx, m) || amount <= Get(b.mvx.locked, m)
    case OtherDirection(_) => false
  }

  /** On any pair of books, tampered with or not, the check passes exactly when the safe holds enough, the setup is
      legal and both chains vouch for the same amount, which is not negative where it comes from mints and burns. */
  lemma VerdictIsExact(reg: Registry, b: Books, e: Bytes, m: Bytes, amount: int, direction: Direction)
    requires WellFormed(reg, b)
    ensures BV.WalksEnd(View(reg, b), |b.eth.batches|)
    ensures BV.Verdict(View(reg, b), e, m, amount, direction, |b.eth.batches|).Ok? <==>
            && Enough(reg, b, e, m, amount, direction)
            && BV.LegalSetup(reg.mintBurn(Eth, e), reg.native(Eth, e), reg.mintBurn(Mvx, m), reg.native(Mvx, m))
            && Vouches(reg, Eth, b.eth, e) == Vouches(reg, Mvx, b.mvx, m)
            && Vouches(reg, Eth, b.eth, e) >= 0
  {
    EthAmountIsVouched(reg, b, e);
    MvxAmountIsVouched(reg, b, m);
  }

  /** In balanced books the common amount is what circulates of the wrapped token or is on its way back. */
  lemma VouchedIsCirculating(reg: Registry, b: Books, c: Chain, s: Bytes, d: Bytes)
    requires LegalRegistry(reg) && Balanced(reg, b) && Paired(reg, c, s, d) && !reg.native(c, s)
    ensures Vouches(reg, c, b.Of(c), s) >= Pending(b.Of(c), s)
    ensures !reg.mintBurn(c.Other(), d) ==> Get(b.Of(c.Other()).locked, d) >= Pending(b.Of(c), s)
  {
    assert Agrees(reg, b, c, s, d);
  }

  /** In every reachable state the check never raises a false alarm: only a safe that holds too little is reported. */
  lemma NoFalseAlarm(reg: Registry, states: seq<Books>, events: seq<Event>, n: nat,
                     e: Bytes, m: Bytes, amount: int, direction: Direction)
    requires LegalRegistry(reg) && IsRun(reg, states, events) && n <= |events|
    requires (e, m) in reg.pairs
    ensures WellFormed(reg, states[n]) && BV.WalksEnd(View(reg, states[n]), |states[n].eth.batches|)
    ensures BV.Verdict(View(reg, states[n]), e, m, amount, direction, |states[n].eth.batches|).Ok? <==>
            Enough(reg, states[n], e, m, amount, direction)
  {
    AlwaysBalanced(reg, states, events, n);
    var b := states[n];
    VerdictIsExact(reg, b, e, m, amount, direction);
    assert Paired(reg, Eth, e, m) && Paired(reg, Mvx, m, e);
    assert Agrees(reg, b, Eth, e, m);
    if reg.native(Eth, e) {
      VouchedIsCirculating(reg, b, Mvx, m, e);
    } else {
      VouchedIsCirculating(reg, b, Eth, e, m);
    }
  }

  /** And the next batch in either direction is never held up: the safe can pay what it takes of every token. */
  lemma NextBatchPasses(reg: Registry, states: seq<Books>, events: seq<Event>, n: nat, c: Chain, e: Bytes, m: Bytes)
    requires LegalRegistry(reg) && IsRun(reg, states, events) && n <= |events|
    requires (e, m) in reg.pairs
    requires states[n].Of(c).executed < |states[n].Of(c).batches|
    ensures WellFormed(reg, states[n]) && BV.WalksEnd(View(reg, states[n]), |states[n].eth.batches|)
    ensures var batch := states[n].Of(c).batches[states[n].Of(c).executed];
            BV.Verdict(View(reg, states[n]), e, m, BV.TokenTotal(batch, if c.Eth? then e else m),
                       if c.Eth? then ToMultiversX else FromMultiversX, |states[n].eth.batches|).Ok?
  {
    AlwaysBalanced(reg, states, events, n);
    var b := states[n];
    var s, d := if c.Eth? then e else m, if c.Eth? then m else e;
    var batch := b.Of(c).batches[b.Of(c).executed];
    ExecuteTakesFromPending(b.Of(c), s);
    assert Paired(reg, c, s, d);
    if !reg.native(c, s) {
      VouchedIsCirculating(reg, b, c, s, d);
    } else {
      assert Paired(reg, c.Other(), d, s);
    }
    NoFalseAlarm(reg, states, events, n, e, m, BV.TokenTotal(batch, s),
                 if c.Eth? then ToMultiversX else FromMultiversX);
  }
}
