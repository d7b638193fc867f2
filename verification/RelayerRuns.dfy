/** Executions of the relayers and the contract that show what the assumptions of the theorems are needed for. */
module RelayerRuns {
  import opened Common
  import opened Batches
  import opened BatchLists
  import opened EthToMvx
  import opened Relayers
  import opened Admissions
  import Framing

  lemma Extend(cfg: Config, systems: seq<System>, events: seq<Event>, s': System, e: Event)
    requires IsExecution(cfg, systems, events) && Next(cfg, systems[|events|], s', e)
    ensures IsExecution(cfg, systems + [s'], events + [e])
  {
  }

  lemma Start(cfg: Config) returns (s: System)
    ensures IsExecution(cfg, [s], []) && s.history == [cfg.genesis]
  {
    s := System([cfg.genesis], map r | r in cfg.honest :: Initial(), {});
  }

  // --------------------------------------- as many faulty relayers as the quorum

  /** A faulty relayer gets a transaction executed. */
  lemma FaultySends(cfg: Config, systems: seq<System>, events: seq<Event>, f: Id, tx: Tx)
    returns (systems': seq<System>, events': seq<Event>)
    requires IsExecution(cfg, systems, events) && f in cfg.faulty
    ensures IsExecution(cfg, systems', events')
    ensures Latest(systems'[|events'|].history) == Apply(cfg, Latest(systems[|events|].history), f, tx)
  {
    var s := systems[|events|];
    var sent := s.(pool := s.pool + {(f, tx)});
    Extend(cfg, systems, events, sent, Misbehaves(f, tx));
    var done := sent.(history := s.history + [Apply(cfg, Latest(s.history), f, tx)]);
    Extend(cfg, systems + [sent], events + [Misbehaves(f, tx)], done, Delivers(f, tx));
    systems', events' := systems + [sent] + [done], events + [Misbehaves(f, tx)] + [Delivers(f, tx)];
  }

  /** Faulty relayers sign the first action. */
  lemma {:induction false} FaultySign(cfg: Config, systems: seq<System>, events: seq<Event>, fs: set<Id>, entry: Entry)
    returns (systems': seq<System>, events': seq<Event>)
    requires IsExecution(cfg, systems, events) && fs <= cfg.faulty
    requires Latest(systems[|events|].history) == cfg.genesis.(entries := [entry])
    ensures IsExecution(cfg, systems', events')
    ensures Latest(systems'[|events'|].history) == cfg.genesis.(entries := [entry.(signers := entry.signers + fs)])
    decreases fs
  {
    if fs == {} {
      assert entry.(signers := entry.signers + fs) == entry;
      return systems, events;
    }
    var f :| f in fs;
    systems', events' := FaultySends(cfg, systems, events, f, BridgeTx(SignAction(1)));
    var signed := entry.(signers := entry.signers + {f});
    assert Latest(systems'[|events'|].history) == cfg.genesis.(entries := [signed]);
    systems', events' := FaultySign(cfg, systems', events', fs - {f}, signed);
    assert entry.signers + {f} + (fs - {f}) == entry.signers + fs;
  }

  /** Enough faulty relayers for a quorum get any batch executed. */
  lemma FaultyQuorumExecutesAnything(cfg: Config, w: WireBatch) returns (systems: seq<System>, events: seq<Event>)
    requires cfg.genesis.entries == [] && 1 <= cfg.quorum <= |cfg.faulty|
    ensures IsExecution(cfg, systems, events)
    ensures var c := Latest(systems[|events|].history);
            c.executed == cfg.genesis.executed + [1] && |c.entries| == 1 && c.entries[0].action == Transfer(w)
  {
    var s := Start(cfg);
    var f :| f in cfg.faulty;
    ReadUndoesProposal(w);
    systems, events := FaultySends(cfg, [s], [], f, BridgeTx(ProposeTransfer(ProposalArgs(w))));
    var entry := Entry(Transfer(w), if cfg.proposerSigns then {f} else {}, false);
    assert Latest(systems[|events|].history) == cfg.genesis.(entries := [entry]);
    systems, events := FaultySign(cfg, systems, events, cfg.faulty, entry);
    SubsetCardinality(cfg.faulty, entry.signers + cfg.faulty);
    systems, events := FaultySends(cfg, systems, events, f, BridgeTx(PerformAction(1)));
  }

  ghost predicate AlwaysSafe(cfg: Config) {
    forall systems: seq<System>, events: seq<Event>, n: nat :: IsExecution(cfg, systems, events) && n <= |events| ==>
      LogSound(cfg, Latest(systems[n].history))
  }

  lemma FewFaultyAreSafe(cfg: Config)
    requires Assumptions(cfg)
    ensures AlwaysSafe(cfg)
  {
    forall systems: seq<System>, events: seq<Event>, n: nat | IsExecution(cfg, systems, events) && n <= |events|
      ensures LogSound(cfg, Latest(systems[n].history))
    {
      ExecutedExactlyOnceInOrder(cfg, systems, events, n);
    }
  }

  /** In every configuration: the executed transfers are the final batches in order, whatever happens, if and only if
      there are fewer faulty relayers than the quorum. */
  lemma SafeIffFewerFaultyThanQuorum(cfg: Config)
    requires Setting(cfg) && cfg.quorum >= 1
    ensures |cfg.faulty| < cfg.quorum <==> AlwaysSafe(cfg)
  {
    if |cfg.faulty| < cfg.quorum {
      FewFaultyAreSafe(cfg);
    } else {
      var systems, events := FaultyQuorumExecutesAnything(cfg, WireBatch(0, []));
      var c := Latest(systems[|events|].history);
      assert !InOrder(cfg, c, 0);
      assert !LogSound(cfg, c);
    }
  }

  // ------------------------------------------------- one batch from end to end

  /** What a relayer sees when nothing goes wrong: it leads, its transactions are sent, its actions are open and have
      their quorum. */
  function Sees(lastBatch: u64, lastTx: u64): Answers {
    Answers(Some(lastBatch), None, None, Some(lastTx), (arg: ArgLists) => true,
            Some(false), true, true, None, Some(false), true, Some(true), Some(false), true)
  }

  /** The batch as the relayer stores it. */
  function Stored(cfg: Config, b: Batch): Batch {
    WithMetadata(b, cfg.events(b.id))
  }

  // Here and below, equations pass what holds on as one fact.
  /** An honest relayer executes its current step and what it sends gets into the pool. */
  lemma Acts(cfg: Config, systems: seq<System>, events: seq<Event>, r: Id, a: Answers) returns (s': System)
    requires IsExecution(cfg, systems, events) && r in cfg.honest && r in systems[|events|].relayers
    requires HonestAnswers(cfg, systems[|events|].history, systems[|events|].relayers[r], a) == true
    ensures IsExecution(cfg, systems + [s'], events + [Relays(r, a)])
    ensures s'.history == systems[|events|].history && r in s'.relayers
    ensures var (next, call) := Execute(cfg.maxRetries, systems[|events|].relayers[r], a);
            s'.relayers[r] == next && (call.Some? ==> (r, BridgeTx(call.value)) in s'.pool)
  {
    var s := systems[|events|];
    var (next, call) := Execute(cfg.maxRetries, s.relayers[r], a);
    s' := System(s.history, s.relayers[r := next], if call.Some? then s.pool + {(r, BridgeTx(call.value))} else s.pool);
    Extend(cfg, systems, events, s', Relays(r, a));
  }

  /** A transaction in the pool reaches the contract. */
  lemma Reaches(cfg: Config, systems: seq<System>, events: seq<Event>, r: Id, tx: Tx) returns (s': System)
    requires IsExecution(cfg, systems, events) && (r, tx) in systems[|events|].pool
    ensures IsExecution(cfg, systems + [s'], events + [Delivers(r, tx)])
    ensures s'.relayers == systems[|events|].relayers
    ensures s'.history == systems[|events|].history + [Apply(cfg, Latest(systems[|events|].history), r, tx)]
  {
    var s := systems[|events|];
    s' := s.(history := s.history + [Apply(cfg, Latest(s.history), r, tx)]);
    Extend(cfg, systems, events, s', Delivers(r, tx));
  }

  /** What lets relayer `r` take batch `b` through, the counters read at `i` and `j`. */
  ghost predicate Ready(cfg: Config, s: System, r: Id, b: Batch, i: nat, j: nat) {
    && r in cfg.honest && r in s.relayers && s.relayers[r].step == GettingPendingBatch
    && i < |s.history| && j < |s.history| && (cfg.orderedReads ==> i <= j)
    && cfg.eth(b.id) == Some(b) && b.deposits != [] && b.id == Succ(s.history[i].lastBatch)
    && Consecutive(b.deposits, Succ(s.history[j].lastTx))
  }

  /** The relayer is in step `step` with batch `b`, action `id` and a fresh retry counter, the contract is `c`, and the
      history goes on from `h`. */
  ghost predicate Working(s: System, r: Id, step: StepId, b: Batch, id: u64, c: Contract, h: seq<Contract>) {
    && r in s.relayers && s.relayers[r].step == step && s.relayers[r].batch == Some(b)
    && (step in {WaitingForQuorum, PerformingActionId} ==> s.relayers[r].actionId == id)
    && (step != PerformingActionId ==> s.relayers[r].quorumRetries == 0)
    && h != [] && h <= s.history && Latest(s.history) == c
  }

  /** Step 1: the batch is fetched and admitted. */
  lemma Fetches(cfg: Config, systems: seq<System>, events: seq<Event>, r: Id, b: Batch, i: nat, j: nat, id: u64)
    returns (systems': seq<System>, events': seq<Event>)
    requires IsExecution(cfg, systems, events) && Ready(cfg, systems[|events|], r, b, i, j)
    ensures IsExecution(cfg, systems', events')
    ensures Working(systems'[|events'|], r, ProposingTransfer, Stored(cfg, b), id,
                    Latest(systems[|events|].history), systems[|events|].history)
  {
    var s := systems[|events|];
    var a := Sees(s.history[i].lastBatch, s.history[j].lastTx)
             .(fetched := Some((b, true)), events := Some(cfg.events(b.id)));
    assert HonestAnswers(cfg, s.history, s.relayers[r], a);
    var s' := Acts(cfg, systems, events, r, a);
    systems', events' := systems + [s'], events + [Relays(r, a)];
  }

  /** Answers without anything new to fetch. */
  function Later(h: seq<Contract>): Answers
    requires h != []
  {
    Sees(h[0].lastBatch, h[0].lastTx)
  }

  lemma LaterIsHonest(cfg: Config, h: seq<Contract>, s: State, a: Answers)
    requires h != [] && a.lastBatchId == Some(h[0].lastBatch) && a.lastTxId == Some(h[0].lastTx) && a.fetched.None?
    requires ReadsActionId(h, s, a)
    ensures HonestAnswers(cfg, h, s, a)
  {
  }

  ghost function Proposed(cfg: Config, c: Contract, r: Id, w: WireBatch): Contract {
    c.(entries := c.entries + [Entry(Transfer(w), if cfg.proposerSigns then {r} else {}, false)])
  }

  ghost function Signed(c: Contract, r: Id, w: WireBatch): Contract {
    c.(entries := c.entries + [Entry(Transfer(w), {r}, false)])
  }

  /** The contract after one more batch was signed by `r` alone and performed. */
  ghost function WithBatch(c: Contract, r: Id, w: WireBatch): Contract {
    Contract(c.entries + [Entry(Transfer(w), {r}, true)], w.id, LastNonce(w, c.lastTx), c.executed + [|c.entries| + 1])
  }

  lemma ProposalApplies(cfg: Config, c: Contract, r: Id, w: WireBatch)
    requires FindAction(c.entries, Transfer(w)) == 0
    ensures Apply(cfg, c, r, BridgeTx(ProposeTransfer(ProposalArgs(w)))) == Proposed(cfg, c, r, w)
    ensures ActionIdFor(Proposed(cfg, c, r, w), ProposalArgs(w)) == |c.entries| + 1
  {
    ReadUndoesProposal(w);
  }

  lemma SignatureApplies(cfg: Config, c: Contract, r: Id, w: WireBatch)
    requires |c.entries| + 1 < U64
    ensures Apply(cfg, Proposed(cfg, c, r, w), r, BridgeTx(SignAction(|c.entries| + 1))) == Signed(c, r, w)
  {
    var signers: set<Id> := if cfg.proposerSigns then {r} else {};
    assert signers + {r} == {r};
    var e := Entry(Transfer(w), signers, false);
    assert (c.entries + [e])[|c.entries| := e.(signers := {r})] == c.entries + [e.(signers := {r})];
  }

  lemma PerformApplies(cfg: Config, c: Contract, r: Id, w: WireBatch)
    requires cfg.quorum == 1 && |c.entries| + 1 < U64
    ensures Apply(cfg, Signed(c, r, w), r, BridgeTx(PerformAction(|c.entries| + 1))) == WithBatch(c, r, w)
  {
    var e := Entry(Transfer(w), {r}, false);
    assert (c.entries + [e])[|c.entries| := e.(performed := true)] == c.entries + [e.(performed := true)];
  }

  /** The relayer executes its step, and what it sends reaches the contract. */
  lemma ActsAndReaches(cfg: Config, systems: seq<System>, events: seq<Event>, r: Id, a: Answers, next: State,
                       call: Call)
    returns (systems': seq<System>, events': seq<Event>)
    requires IsExecution(cfg, systems, events) && r in cfg.honest && r in systems[|events|].relayers
    requires HonestAnswers(cfg, systems[|events|].history, systems[|events|].relayers[r], a) == true
    requires Execute(cfg.maxRetries, systems[|events|].relayers[r], a) == (next, Some(call))
    ensures IsExecution(cfg, systems', events')
    ensures var s, s' := systems[|events|], systems'[|events'|];
            && r in s'.relayers && s'.relayers[r] == next
            && s'.history == s.history + [Apply(cfg, Latest(s.history), r, BridgeTx(call))]
  {
    var s' := Acts(cfg, systems, events, r, a);
    systems', events' := systems + [s'], events + [Relays(r, a)];
    s' := Reaches(cfg, systems', events', r, BridgeTx(call));
    systems', events' := systems' + [s'], events' + [Delivers(r, BridgeTx(call))];
  }

  /** Step 2: the batch is proposed, and the proposal reaches the contract. */
  lemma Proposes(cfg: Config, systems: seq<System>, events: seq<Event>, r: Id, b: Batch, c: Contract, h: seq<Contract>)
    returns (systems': seq<System>, events': seq<Event>)
    requires IsExecution(cfg, systems, events) && r in cfg.honest
    requires FindAction(c.entries, Transfer(WireOf(b))) == 0 && |c.entries| + 1 < U64
    requires Working(systems[|events|], r, ProposingTransfer, b, |c.entries| + 1, c, h)
    ensures IsExecution(cfg, systems', events')
    ensures Working(systems'[|events'|], r, SigningProposedTransfer, b, |c.entries| + 1,
                    Proposed(cfg, c, r, WireOf(b)), h)
  {
    var s := systems[|events|];
    var a := Later(s.history);
    LaterIsHonest(cfg, s.history, s.relayers[r], a);
    ProposalApplies(cfg, c, r, WireOf(b));
    systems', events' := ActsAndReaches(cfg, systems, events, r, a, s.relayers[r].(step := SigningProposedTransfer),
                                        ProposeTransfer(ProposalArgs(WireOf(b))));
  }

  lemma SigningSigns(max: nat, s: State, a: Answers, id: u64)
    requires s.step == SigningProposedTransfer && s.batch.Some? && id != INVALID_ACTION_ID
    requires a.actionId == Some(id) && a.wasSigned == Some(false) && a.signSent
    ensures Execute(max, s, a) == (s.(step := WaitingForQuorum, actionId := id), Some(SignAction(id)))
  {
  }

  lemma FoundNow(h: seq<Contract>, s: State, a: Answers, b: Batch, id: u64)
    requires h != [] && s.batch == Some(b) && a.actionId == Some(id)
    requires ActionIdFor(Latest(h), ProposalArgs(WireOf(b))) == id
    ensures ReadsActionId(h, s, a)
  {
    assert a.actionId.value == ActionIdFor(h[|h| - 1], ProposalArgs(WireOf(s.batch.value)));
  }

  /** Step 3: the action is found and signed, and the signature reaches the contract. */
  lemma Signs(cfg: Config, systems: seq<System>, events: seq<Event>, r: Id, b: Batch, c: Contract, h: seq<Contract>)
    returns (systems': seq<System>, events': seq<Event>)
    requires IsExecution(cfg, systems, events) && r in cfg.honest
    requires FindAction(c.entries, Transfer(WireOf(b))) == 0 && |c.entries| + 1 < U64
    requires Working(systems[|events|], r, SigningProposedTransfer, b, |c.entries| + 1,
                     Proposed(cfg, c, r, WireOf(b)), h)
    ensures IsExecution(cfg, systems', events')
    ensures Working(systems'[|events'|], r, WaitingForQuorum, b, |c.entries| + 1, Signed(c, r, WireOf(b)), h)
  {
    var s := systems[|events|];
    var id: u64 := |c.entries| + 1;
    ProposalApplies(cfg, c, r, WireOf(b));
    SignatureApplies(cfg, c, r, WireOf(b));
    var a := Later(s.history).(actionId := Some(id));
    FoundNow(s.history, s.relayers[r], a, b, id);
    LaterIsHonest(cfg, s.history, s.relayers[r], a);
    SigningSigns(cfg.maxRetries, s.relayers[r], a, id);
    systems', events' := ActsAndReaches(cfg, systems, events, r, a,
                                        s.relayers[r].(step := WaitingForQuorum, actionId := id), SignAction(id));
  }

  /** Step 4: the quorum is there. */
  lemma Waits(cfg: Config, systems: seq<System>, events: seq<Event>, r: Id, b: Batch, id: u64, c: Contract,
              h: seq<Contract>)
    returns (systems': seq<System>, events': seq<Event>)
    requires IsExecution(cfg, systems, events) && r in cfg.honest && cfg.maxRetries >= 1
    requires Working(systems[|events|], r, WaitingForQuorum, b, id, c, h)
    ensures IsExecution(cfg, systems', events')
    ensures Working(systems'[|events'|], r, PerformingActionId, b, id, c, h)
  {
    var s := systems[|events|];
    var a := Later(s.history);
    LaterIsHonest(cfg, s.history, s.relayers[r], a);
    var s' := Acts(cfg, systems, events, r, a);
    systems', events' := systems + [s'], events + [Relays(r, a)];
  }

  /** Step 5: the action is performed; once that is reported the machine starts over. */
  lemma Performs(cfg: Config, systems: seq<System>, events: seq<Event>, r: Id, b: Batch, c: Contract, h: seq<Contract>)
    returns (systems': seq<System>, events': seq<Event>)
    requires IsExecution(cfg, systems, events) && r in cfg.honest && cfg.quorum == 1 && |c.entries| + 1 < U64
    requires Working(systems[|events|], r, PerformingActionId, b, |c.entries| + 1, Signed(c, r, WireOf(b)), h)
    ensures IsExecution(cfg, systems', events')
    ensures Working(systems'[|events'|], r, PerformingActionId, b, |c.entries| + 1, WithBatch(c, r, WireOf(b)), h)
  {
    var s := systems[|events|];
    PerformApplies(cfg, c, r, WireOf(b));
    var a := Later(s.history);
    LaterIsHonest(cfg, s.history, s.relayers[r], a);
    systems', events' := ActsAndReaches(cfg, systems, events, r, a, s.relayers[r], PerformAction(|c.entries| + 1));
  }

  lemma Finishes(cfg: Config, systems: seq<System>, events: seq<Event>, r: Id, b: Batch, id: u64, c: Contract,
                 h: seq<Contract>)
    returns (systems': seq<System>, events': seq<Event>)
    requires IsExecution(cfg, systems, events) && r in cfg.honest
    requires Working(systems[|events|], r, PerformingActionId, b, id, c, h)
    ensures IsExecution(cfg, systems', events')
    ensures var s' := systems'[|events'|];
            && r in s'.relayers && s'.relayers[r].step == GettingPendingBatch
            && h <= s'.history && Latest(s'.history) == c
  {
    var s := systems[|events|];
    var a := Later(s.history).(wasPerformed := Some(true));
    LaterIsHonest(cfg, s.history, s.relayers[r], a);
    var s' := Acts(cfg, systems, events, r, a);
    systems', events' := systems + [s'], events + [Relays(r, a)];
  }

  /** With a quorum of one a relayer takes a batch through all five steps, and is ready for the next one. */
  lemma OneBatch(cfg: Config, systems: seq<System>, events: seq<Event>, r: Id, b: Batch, i: nat, j: nat)
    returns (systems': seq<System>, events': seq<Event>)
    requires IsExecution(cfg, systems, events) && cfg.quorum == 1 && cfg.maxRetries >= 1
    requires Ready(cfg, systems[|events|], r, b, i, j)
    requires var c := Latest(systems[|events|].history);
             FindAction(c.entries, Transfer(WireOf(Stored(cfg, b)))) == 0 && |c.entries| + 1 < U64
    ensures IsExecution(cfg, systems', events')
    ensures var s' := systems'[|events'|];
            && r in s'.relayers && s'.relayers[r].step == GettingPendingBatch
            && systems[|events|].history <= s'.history
            && Latest(s'.history) == WithBatch(Latest(systems[|events|].history), r, WireOf(Stored(cfg, b)))
  {
    var h := systems[|events|].history;
    var c, stored := Latest(h), Stored(cfg, b);
    systems', events' := Fetches(cfg, systems, events, r, b, i, j, |c.entries| + 1);
    systems', events' := Proposes(cfg, systems', events', r, stored, c, h);
    systems', events' := Signs(cfg, systems', events', r, stored, c, h);
    systems', events' := Waits(cfg, systems', events', r, stored, |c.entries| + 1, Signed(c, r, WireOf(stored)), h);
    systems', events' := Performs(cfg, systems', events', r, stored, c, h);
    systems', events' := Finishes(cfg, systems', events', r, stored, |c.entries| + 1,
                                  WithBatch(c, r, WireOf(stored)), h);
  }

  // ------------------------------------------------------ counters out of order

  function OneDeposit(id: u64): Option<Batch> {
    if id == 1 || id == 2 then Some(Batch(id, [Deposit(1, [], [], [], [], 0, [])], [])) else None
  }

  /** When the last deposit nonce may be read from an older state than the last batch ID, a batch that repeats an
      executed nonce is executed: IDs, uniqueness and contents hold as always, the continuity of the nonces does not.
      */
  lemma OldNonceBreaksContinuity() returns (cfg: Config, systems: seq<System>, events: seq<Event>)
    ensures Assumptions(cfg) && cfg.maxRetries >= 1 && !cfg.orderedReads && IsExecution(cfg, systems, events)
    ensures var c := Latest(systems[|events|].history);
            |c.executed| == 2 && !ConsecutiveWire(BatchAt(c, 1).deposits, Succ(TxBefore(cfg, c, 1)))
  {
    var r: Id := [];
    cfg := Config({r}, {}, 1, 1, true, false, OneDeposit, (id: u64) => [], Contract([], 0, 0, []));
    var s := Start(cfg);
    var first, second := OneDeposit(1).value, OneDeposit(2).value;
    systems, events := OneBatch(cfg, [s], [], r, first, 0, 0);
    var n := |systems[|events|].history| - 1;
    var w1, w2 := WireOf(Stored(cfg, first)), WireOf(Stored(cfg, second));
    var c1 := WithBatch(cfg.genesis, r, w1);
    assert systems[|events|].history[0] == cfg.genesis && systems[|events|].history[n] == c1;
    assert FindAction(c1.entries, Transfer(w2)) == 0;
    systems, events := OneBatch(cfg, systems, events, r, second, n, 0);
    RepeatedNonce(cfg, r, w1, w2, Latest(systems[|events|].history));
  }

  lemma RepeatedNonce(cfg: Config, r: Id, w1: WireBatch, w2: WireBatch, c: Contract)
    requires cfg.genesis == Contract([], 0, 0, []) && c == WithBatch(WithBatch(cfg.genesis, r, w1), r, w2)
    requires |w1.deposits| == 1 && |w2.deposits| == 1 && w1.deposits[0].nonce == 1 && w2.deposits[0].nonce == 1
    ensures |c.executed| == 2 && !ConsecutiveWire(BatchAt(c, 1).deposits, Succ(TxBefore(cfg, c, 1)))
  {
    assert Logged(c, 0) && Logged(c, 1);
    assert BatchAt(c, 0) == w1 && BatchAt(c, 1) == w2;
  }

  lemma WireNonces(b: Batch, start: u64, last: u64)
    requires Consecutive(b.deposits, Succ(start)) && b.deposits != []
    ensures ConsecutiveWire(WireOf(b).deposits, Succ(last)) <==> start == last
  {
    var w := WireOf(b);
    assert w.deposits[0].nonce == b.deposits[0].nonce == Succ(start);
    if start == last {
      forall i | 0 <= i < |w.deposits| ensures w.deposits[i].nonce == NonceAfter(Succ(last), i) {
        assert w.deposits[i].nonce == b.deposits[i].nonce;
      }
    }
  }

  /** The nonces of an executed batch continue those before it if and only if an honest signer, any of them, read the
      current last nonce, the one of the batch executed before, when it admitted the batch. */
  lemma NoncesContinueIff(cfg: Config, systems: seq<System>, events: seq<Event>, n: nat, i: nat, r: Id) returns (j: nat)
    requires Assumptions(cfg) && IsExecution(cfg, systems, events) && n <= |events|
    requires var c := Latest(systems[n].history);
             Logged(c, i) && r in cfg.honest && r in c.entries[c.executed[i] - 1].signers
    ensures var c := Latest(systems[n].history);
            && j < n && Admits(systems[j], events[j], r, BatchAt(c, i))
            && (ConsecutiveWire(BatchAt(c, i).deposits, Succ(TxBefore(cfg, c, i))) <==>
                events[j].a.lastTxId == Some(TxBefore(cfg, c, i)))
  {
    var c := Latest(systems[n].history);
    j := SignerAdmittedTheBatch(cfg, systems, events, n, c.executed[i], r);
    WireNonces(Offered(events[j].a).value, events[j].a.lastTxId.value, TxBefore(cfg, c, i));
  }

  /** There is such a signer for every executed batch. */
  lemma HonestSignerOf(cfg: Config, systems: seq<System>, events: seq<Event>, n: nat, i: nat) returns (r: Id)
    requires Assumptions(cfg) && IsExecution(cfg, systems, events) && n <= |events|
    requires i < |Latest(systems[n].history).executed|
    ensures var c := Latest(systems[n].history);
            Logged(c, i) && r in cfg.honest && r in c.entries[c.executed[i] - 1].signers
  {
    var c := Latest(systems[n].history);
    ExecutedExactlyOnceInOrder(cfg, systems, events, n);
    assert InOrder(cfg, c, i);
    PerformedWasVouchedFor(cfg, systems, events, n, c.executed[i]);
    var honest := c.entries[c.executed[i] - 1].signers * cfg.honest;
    assert honest != {};
    r :| r in honest;
  }
}
