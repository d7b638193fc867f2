/**
 Any number of relayers against the multisig contract.

 Honest relayers run the machine of EthToMvx; faulty ones send whatever they like. Transactions wait in a pool and
 reach the contract in any order, any number of times, or never. Queries read the contract's history: any state up to
 now, so an answer may be as stale as the node that gave it.
 */
module Relayers {
  import opened Common
  import opened Batches
  import opened EthToMvx
  import Framing

  type Id = Bytes

  datatype Action = Transfer(batch: WireBatch) | SetStatus(batchId: u64, statuses: Bytes)

  datatype Entry = Entry(action: Action, signers: set<Id>, performed: bool)

  /** The action with ID `k + 1` is `entries[k]`; `executed` logs the IDs of the transfers in the order performed. */
  datatype Contract = Contract(entries: seq<Entry>, lastBatch: u64, lastTx: u64, executed: seq<nat>)

  datatype Tx = BridgeTx(call: Call) | ProposeSetStatusTx(batchId: u64, statuses: Bytes)

  /** `eth` and `events` are the final contents of the Ethereum safe: a node of an honest relayer that reports a batch
      as final reports this one. The quorum and the set of relayers do not change. With `orderedReads` the last executed
      deposit nonce is never read from an older state than the last executed batch ID was. */
  datatype Config = Config(
    honest: set<Id>, faulty: set<Id>, quorum: nat, maxRetries: nat, proposerSigns: bool, orderedReads: bool,
    eth: u64 -> Option<Batch>, events: u64 -> seq<Framing.ScDepositEvent>, genesis: Contract)

  datatype System = System(history: seq<Contract>, relayers: map<Id, State>, pool: set<(Id, Tx)>)

  // ------------------------------------------------------------ the contract

  /** The ID of an action, zero if it was never proposed. */
  function FindAction(entries: seq<Entry>, action: Action): (id: nat)
    ensures id <= |entries|
    ensures id > 0 ==> entries[id - 1].action == action
    ensures id == 0 ==> forall k :: 0 <= k < |entries| ==> entries[k].action != action
  {
    if entries == [] then 0
    else if entries[|entries| - 1].action == action then |entries|
    else FindAction(entries[..|entries| - 1], action)
  }

  /** getActionIdForTransferBatch on an argument list. */
  function ActionIdFor(c: Contract, args: seq<Arg>): nat {
    match ReadProposal(args)
    case None => 0
    case Some(w) => FindAction(c.entries, Transfer(w))
  }

  function AddAction(cfg: Config, c: Contract, sender: Id, action: Action): Contract {
    if FindAction(c.entries, action) != 0 then c
    else c.(entries := c.entries + [Entry(action, if cfg.proposerSigns then {sender} else {}, false)])
  }

  function AddSigner(c: Contract, sender: Id, id: nat): Contract {
    if id == 0 || id > |c.entries| then c
    else
      var e := c.entries[id - 1];
      c.(entries := c.entries[id - 1 := e.(signers := e.signers + {sender})])
  }

  /** The nonce of the last deposit, or what it was before. */
  function LastNonce(w: WireBatch, before: u64): u64 {
    if w.deposits == [] then before else w.deposits[|w.deposits| - 1].nonce
  }

  function PerformEntry(cfg: Config, c: Contract, id: nat): Contract {
    if id == 0 || id > |c.entries| || c.entries[id - 1].performed || |c.entries[id - 1].signers| < cfg.quorum then c
    else
      var e := c.entries[id - 1];
      var marked := c.(entries := c.entries[id - 1 := e.(performed := true)]);
      match e.action
      case SetStatus(_, _) => marked
      case Transfer(w) =>
        marked.(lastBatch := w.id, lastTx := LastNonce(w, c.lastTx), executed := c.executed + [id])
  }

  function Apply(cfg: Config, c: Contract, sender: Id, tx: Tx): Contract {
    match tx
    case ProposeSetStatusTx(batchId, statuses) => AddAction(cfg, c, sender, SetStatus(batchId, statuses))
    case BridgeTx(ProposeTransfer(args)) =>
      (match ReadProposal(args)
       case None => c
       case Some(w) => AddAction(cfg, c, sender, Transfer(w)))
    case BridgeTx(SignAction(id)) => AddSigner(c, sender, id)
    case BridgeTx(PerformAction(id)) => PerformEntry(cfg, c, id)
  }

  // --------------------------------------------------------------- the system

  /** The final batch with an ID and its call data, as it is put on the wire. */
  function Canonical(cfg: Config, id: u64): Option<WireBatch> {
    match cfg.eth(id)
    case None => None
    case Some(b) => Some(WireOf(WithMetadata(b, cfg.events(id))))
  }

  /** The two counters are read at past points of the contract's history. */
  ghost predicate ReadsCounters(cfg: Config, h: seq<Contract>, a: Answers) {
    exists i, j :: 0 <= i < |h| && 0 <= j < |h| && (cfg.orderedReads ==> i <= j)
      && (a.lastBatchId.Some? ==> a.lastBatchId.value == h[i].lastBatch)
      && (a.lastTxId.Some? ==> a.lastTxId.value == h[j].lastTx)
  }

  /** A batch reported as final is the final one. */
  ghost predicate ReadsEthereum(cfg: Config, a: Answers) {
    a.fetched.Some? && a.fetched.value.1 && a.fetched.value.0.deposits != [] ==>
      var b := a.fetched.value.0;
      && cfg.eth(b.id) == Some(b)
      && (a.events.Some? ==> a.events.value == cfg.events(b.id))
  }

  /** The action ID is looked up at a past point, with the arguments of the stored batch. */
  ghost predicate ReadsActionId(h: seq<Contract>, s: State, a: Answers) {
    s.batch.Some? && a.actionId.Some? ==>
      exists k :: 0 <= k < |h| && a.actionId.value == ActionIdFor(h[k], ProposalArgs(WireOf(s.batch.value)))
  }

  /** The answers an honest relayer can get; any of them may be an error, and nothing is assumed of the others. */
  ghost predicate HonestAnswers(cfg: Config, h: seq<Contract>, s: State, a: Answers) {
    ReadsCounters(cfg, h, a) && ReadsEthereum(cfg, a) && ReadsActionId(h, s, a)
  }

  ghost predicate Init(cfg: Config, s: System) {
    && s.history == [cfg.genesis]
    && s.relayers.Keys == cfg.honest
    && (forall r :: r in cfg.honest ==> s.relayers[r] == Initial())
    && s.pool == {}
  }

  /** An honest relayer executes one step; what it sends may or may not get into the pool, whatever it was told. */
  ghost predicate RelayerStep(cfg: Config, s: System, s': System, r: Id, a: Answers) {
    && r in cfg.honest && r in s.relayers
    && HonestAnswers(cfg, s.history, s.relayers[r], a)
    && var (next, call) := Execute(cfg.maxRetries, s.relayers[r], a);
       && s'.history == s.history
       && s'.relayers == s.relayers[r := next]
       && (s'.pool == s.pool || (call.Some? && s'.pool == s.pool + {(r, BridgeTx(call.value))}))
  }

  /** The MultiversX -> Ethereum half of an honest relayer proposes, signs or performs a status update. The ID it
      performs is left open, more than that half would do. */
  ghost predicate OtherHalfStep(s: System, s': System, r: Id, tx: Tx) {
    && s'.history == s.history && s'.relayers == s.relayers && s'.pool == s.pool + {(r, tx)}
    && (tx.ProposeSetStatusTx?
        || tx.call.PerformAction?
        || (tx.call.SignAction? && exists k :: 0 <= k < |s.history| && IsSetStatus(s.history[k], tx.call.actionId)))
  }

  ghost predicate IsSetStatus(c: Contract, id: nat) {
    1 <= id <= |c.entries| && c.entries[id - 1].action.SetStatus?
  }

  ghost predicate FaultyStep(s: System, s': System, r: Id, tx: Tx) {
    s'.history == s.history && s'.relayers == s.relayers && s'.pool == s.pool + {(r, tx)}
  }

  ghost predicate ContractStep(cfg: Config, s: System, s': System, r: Id, tx: Tx) {
    && (r, tx) in s.pool
    && s'.history == s.history + [Apply(cfg, Latest(s.history), r, tx)]
    && s'.relayers == s.relayers && s'.pool == s.pool
  }

  ghost function Latest(h: seq<Contract>): Contract {
    if h == [] then Contract([], 0, 0, []) else h[|h| - 1]
  }

  datatype Event =
    | Relays(r: Id, a: Answers)
    | UpdatesStatus(r: Id, tx: Tx)
    | Misbehaves(r: Id, tx: Tx)
    | Delivers(r: Id, tx: Tx)

  ghost predicate Next(cfg: Config, s: System, s': System, e: Event) {
    match e
    case Relays(r, a) => RelayerStep(cfg, s, s', r, a)
    case UpdatesStatus(r, tx) => r in cfg.honest && OtherHalfStep(s, s', r, tx)
    case Misbehaves(r, tx) => r in cfg.faulty && FaultyStep(s, s', r, tx)
    case Delivers(r, tx) => ContractStep(cfg, s, s', r, tx)
  }

  ghost predicate IsExecution(cfg: Config, systems: seq<System>, events: seq<Event>) {
    && |systems| == |events| + 1
    && Init(cfg, systems[0])
    && forall i {:trigger events[i]} :: 0 <= i < |events| ==> Next(cfg, systems[i], systems[i + 1], events[i])
  }

  /** What the theorems assume: honest relayers are needed for a quorum, the contract starts with no open actions, and
      Ethereum numbers its batches from one. */
  ghost predicate Assumptions(cfg: Config) {
    Setting(cfg) && |cfg.faulty| < cfg.quorum
  }

  ghost predicate Setting(cfg: Config) {
    && cfg.honest !! cfg.faulty
    && cfg.genesis.entries == [] && cfg.genesis.executed == []
    && cfg.eth(0).None?
    && (forall id: u64 :: cfg.eth(id).Some? ==> cfg.eth(id).value.id == id)
  }

  // ---------------------------------------------------------- the invariant

  ghost predicate ConsecutiveWire(ds: seq<WireDeposit>, start: u64) {
    forall i :: 0 <= i < |ds| ==> ds[i].nonce == NonceAfter(start, i)
  }

  /** `w` is the final batch after the one last executed at `h[i]`, its deposits follow the one last executed at
      `h[j]`. */
  ghost predicate VouchedAt(cfg: Config, h: seq<Contract>, w: WireBatch, i: nat, j: nat) {
    && i < |h| && j < |h| && (cfg.orderedReads ==> i <= j)
    && Canonical(cfg, w.id) == Some(w)
    && w.deposits != []
    && w.id == Succ(h[i].lastBatch)
    && ConsecutiveWire(w.deposits, Succ(h[j].lastTx))
  }

  ghost predicate Vouched(cfg: Config, h: seq<Contract>, w: WireBatch) {
    exists i: nat, j: nat :: VouchedAt(cfg, h, w, i, j)
  }

  /** An action an honest relayer may have signed. */
  ghost predicate Signable(cfg: Config, h: seq<Contract>, action: Action) {
    action.SetStatus? || Vouched(cfg, h, action.batch)
  }

  ghost predicate Grows(c: Contract, d: Contract) {
    && |c.entries| <= |d.entries|
    && (forall k :: 0 <= k < |c.entries| ==> c.entries[k].action == d.entries[k].action)
    && c.lastBatch <= d.lastBatch
    && (c.lastBatch == d.lastBatch ==> c.lastTx == d.lastTx)
  }

  ghost predicate HistoryGrows(cfg: Config, h: seq<Contract>) {
    && h != [] && h[0] == cfg.genesis
    && forall i, j {:trigger Grows(h[i], h[j])} :: 0 <= i <= j < |h| ==> Grows(h[i], h[j])
  }

  /** No action is proposed twice. */
  ghost predicate ActionsDistinct(c: Contract) {
    forall k, l :: 0 <= k < l < |c.entries| ==> c.entries[k].action != c.entries[l].action
  }

  ghost predicate EntriesSound(cfg: Config, h: seq<Contract>, c: Contract) {
    && ActionsDistinct(c)
    && (forall k :: 0 <= k < |c.entries| ==> c.entries[k].signers <= cfg.honest + cfg.faulty)
    && (forall k :: 0 <= k < |c.entries| && c.entries[k].signers * cfg.honest != {} ==>
          Signable(cfg, h, c.entries[k].action))
    && (forall k :: 0 <= k < |c.entries| && c.entries[k].performed ==> |c.entries[k].signers| >= cfg.quorum)
  }

  /** The `i`-th logged ID names a performed transfer. */
  ghost predicate Logged(c: Contract, i: nat) {
    && i < |c.executed|
    && 1 <= c.executed[i] <= |c.entries|
    && c.entries[c.executed[i] - 1].performed
    && c.entries[c.executed[i] - 1].action.Transfer?
  }

  ghost function BatchAt(c: Contract, i: nat): WireBatch {
    if Logged(c, i) then c.entries[c.executed[i] - 1].action.batch else WireBatch(0, [])
  }

  /** The deposit nonce after which the `i`-th executed batch has to continue. */
  ghost function TxBefore(cfg: Config, c: Contract, i: nat): u64 {
    if i == 0 then cfg.genesis.lastTx else LastNonce(BatchAt(c, i - 1), 0)
  }

  /** The `i`-th executed batch is the `i`-th final batch after the first, whole, and with ordered reads it continues
      the deposit nonces. */
  ghost predicate InOrder(cfg: Config, c: Contract, i: nat) {
    && Logged(c, i)
    && BatchAt(c, i).id == cfg.genesis.lastBatch + 1 + i
    && Canonical(cfg, BatchAt(c, i).id) == Some(BatchAt(c, i))
    && BatchAt(c, i).deposits != []
    && (cfg.orderedReads ==> ConsecutiveWire(BatchAt(c, i).deposits, Succ(TxBefore(cfg, c, i))))
  }

  ghost predicate LogSound(cfg: Config, c: Contract) {
    && c.lastBatch == cfg.genesis.lastBatch + |c.executed|
    && c.lastTx == TxBefore(cfg, c, |c.executed|)
    && forall i :: 0 <= i < |c.executed| ==> InOrder(cfg, c, i)
  }

  /** A transaction an honest relayer sends proposes or signs only what it may vouch for. */
  ghost predicate TxSound(cfg: Config, h: seq<Contract>, r: Id, tx: Tx) {
    && r in cfg.honest + cfg.faulty
    && (r in cfg.honest && tx.BridgeTx? ==>
          match tx.call
          case ProposeTransfer(args) => ReadProposal(args).Some? && Vouched(cfg, h, ReadProposal(args).value)
          case SignAction(id) => 1 <= id <= |Latest(h).entries| && Signable(cfg, h, Latest(h).entries[id - 1].action)
          case PerformAction(_) => true)
  }

  ghost predicate PoolSound(cfg: Config, h: seq<Contract>, pool: set<(Id, Tx)>) {
    forall p :: p in pool ==> TxSound(cfg, h, p.0, p.1)
  }

  /** Past the first step a relayer holds a vouched batch, past the signing step also the ID of its action. */
  ghost predicate RelayerSound(cfg: Config, h: seq<Contract>, s: State) {
    && (s.step != GettingPendingBatch ==> HoldsVouched(cfg, h, s))
    && (s.step in {WaitingForQuorum, PerformingActionId} ==> NamesAction(Latest(h), s))
  }

  ghost predicate HoldsVouched(cfg: Config, h: seq<Contract>, s: State) {
    s.batch.Some? && Vouched(cfg, h, WireOf(s.batch.value))
  }

  ghost predicate NamesAction(c: Contract, s: State) {
    && s.batch.Some?
    && 1 <= s.actionId <= |c.entries|
    && c.entries[s.actionId - 1].action == Transfer(WireOf(s.batch.value))
  }

  ghost predicate RelayersSound(cfg: Config, h: seq<Contract>, relayers: map<Id, State>) {
    relayers.Keys == cfg.honest && forall r :: r in relayers ==> RelayerSound(cfg, h, relayers[r])
  }

  ghost predicate Invariant(cfg: Config, s: System) {
    && HistoryGrows(cfg, s.history)
    && EntriesSound(cfg, s.history, Latest(s.history))
    && LogSound(cfg, Latest(s.history))
    && PoolSound(cfg, s.history, s.pool)
    && RelayersSound(cfg, s.history, s.relayers)
  }

  // -------------------------------------------------------- relayer steps

  /** A batch admitted on honest answers is the final one and follows what the contract had executed. */
  lemma AdmittedIsVouched(cfg: Config, h: seq<Contract>, b: Batch, a: Answers)
    requires ReadsCounters(cfg, h, a) && ReadsEthereum(cfg, a) && Admitted(b, a)
    ensures Vouched(cfg, h, WireOf(b))
  {
    var i, j :| 0 <= i < |h| && 0 <= j < |h| && (cfg.orderedReads ==> i <= j)
      && (a.lastBatchId.Some? ==> a.lastBatchId.value == h[i].lastBatch)
      && (a.lastTxId.Some? ==> a.lastTxId.value == h[j].lastTx);
    assert VouchedAt(cfg, h, WireOf(b), i, j);
  }

  /** The action ID found for the stored batch names that batch now, however old the answer is. */
  lemma FoundActionIsCurrent(cfg: Config, h: seq<Contract>, b: Batch, k: nat, id: nat)
    requires HistoryGrows(cfg, h) && k < |h|
    requires id == ActionIdFor(h[k], ProposalArgs(WireOf(b))) && id != 0
    ensures id <= |Latest(h).entries| && Latest(h).entries[id - 1].action == Transfer(WireOf(b))
  {
    ReadUndoesProposal(WireOf(b));
    assert Grows(h[k], h[|h| - 1]);
  }

  /** The ID answered for the stored batch names that batch in the current contract. */
  lemma AnsweredActionIsCurrent(cfg: Config, h: seq<Contract>, s: State, a: Answers, id: u64)
    requires HistoryGrows(cfg, h) && ReadsActionId(h, s, a)
    requires s.batch.Some? && a.actionId == Some(id) && id != INVALID_ACTION_ID
    ensures id <= |Latest(h).entries| && Latest(h).entries[id - 1].action == Transfer(WireOf(s.batch.value))
  {
    var k :| 0 <= k < |h| && a.actionId.value == ActionIdFor(h[k], ProposalArgs(WireOf(s.batch.value)));
    FoundActionIsCurrent(cfg, h, s.batch.value, k, id);
  }

  lemma NextHoldsVouched(cfg: Config, h: seq<Contract>, s: State, a: Answers, next: State)
    requires s.step != GettingPendingBatch ==> HoldsVouched(cfg, h, s)
    requires ReadsCounters(cfg, h, a) && ReadsEthereum(cfg, a) && KeepsBatch(s, a, next)
    requires next.step != GettingPendingBatch
    ensures HoldsVouched(cfg, h, next)
  {
    if s.step == GettingPendingBatch {
      AdmittedIsVouched(cfg, h, next.batch.value, a);
    }
  }

  lemma NextNamesAction(cfg: Config, h: seq<Contract>, s: State, a: Answers, next: State)
    requires HistoryGrows(cfg, h) && ReadsActionId(h, s, a) && KeepsAction(s, a, next) && next.batch.Some?
    requires s.step in {WaitingForQuorum, PerformingActionId} ==> NamesAction(Latest(h), s)
    requires next.step in {WaitingForQuorum, PerformingActionId}
    ensures NamesAction(Latest(h), next)
  {
    if s.step == SigningProposedTransfer {
      AnsweredActionIsCurrent(cfg, h, s, a, next.actionId);
    }
  }

  lemma RelayerStaysSound(cfg: Config, h: seq<Contract>, s: State, a: Answers, next: State)
    requires HistoryGrows(cfg, h) && RelayerSound(cfg, h, s)
    requires HonestAnswers(cfg, h, s, a) && Keeps(s, a, next)
    ensures RelayerSound(cfg, h, next)
  {
    if next.step != GettingPendingBatch {
      NextHoldsVouched(cfg, h, s, a, next);
      if next.step in {WaitingForQuorum, PerformingActionId} {
        NextNamesAction(cfg, h, s, a, next);
      }
    }
  }

  lemma CallIsSound(cfg: Config, h: seq<Contract>, s: State, a: Answers, r: Id, call: Call)
    requires HistoryGrows(cfg, h) && r in cfg.honest && (s.step != GettingPendingBatch ==> HoldsVouched(cfg, h, s))
    requires ReadsActionId(h, s, a) && Justified(s, a, call)
    ensures TxSound(cfg, h, r, BridgeTx(call))
  {
    if call.ProposeTransfer? {
      ReadUndoesProposal(WireOf(s.batch.value));
    } else if call.SignAction? {
      AnsweredActionIsCurrent(cfg, h, s, a, call.actionId);
      assert Signable(cfg, h, Latest(h).entries[call.actionId - 1].action);
    }
  }

  // ------------------------------------------------------- contract steps

  /** Too few faulty relayers for a quorum: some honest one has signed. */
  lemma QuorumHasHonestSigner(cfg: Config, signers: set<Id>)
    requires signers <= cfg.honest + cfg.faulty && |signers| >= cfg.quorum
    ensures |signers * cfg.honest| >= cfg.quorum - |cfg.faulty|
  {
    var h, f := signers * cfg.honest, signers * cfg.faulty;
    assert signers == h + f;
    assert |h + f| <= |h| + |f|;
    SubsetCardinality(f, cfg.faulty);
  }

  /** A final batch that is not ahead of the contract has been performed. */
  lemma AlreadyPerformed(cfg: Config, c: Contract, w: WireBatch) returns (k: nat)
    requires LogSound(cfg, c)
    requires Canonical(cfg, w.id) == Some(w)
    requires cfg.genesis.lastBatch < w.id <= c.lastBatch
    ensures k < |c.entries| && c.entries[k].performed && c.entries[k].action == Transfer(w)
  {
    var n := w.id - cfg.genesis.lastBatch - 1;
    assert InOrder(cfg, c, n);
    k := c.executed[n] - 1;
  }

  /** A vouched batch follows what was executed when its relayer looked, so it cannot be ahead of the contract. */
  lemma VouchedIsNotAhead(cfg: Config, h: seq<Contract>, w: WireBatch)
    requires Assumptions(cfg) && HistoryGrows(cfg, h) && Vouched(cfg, h, w)
    ensures w.deposits != [] && Canonical(cfg, w.id) == Some(w)
    ensures cfg.genesis.lastBatch < w.id <= Latest(h).lastBatch + 1
    ensures cfg.orderedReads && w.id == Latest(h).lastBatch + 1 ==> ConsecutiveWire(w.deposits, Succ(Latest(h).lastTx))
  {
    var i: nat, j: nat :| VouchedAt(cfg, h, w, i, j);
    assert Grows(h[0], h[i]) && Grows(h[i], Latest(h)) && Grows(h[j], Latest(h));
    assert cfg.orderedReads ==> Grows(h[i], h[j]);
  }

  /** A performable entry: proposed, not performed yet, with a quorum of signatures. */
  ghost predicate Performable(cfg: Config, c: Contract, id: nat) {
    1 <= id <= |c.entries| && !c.entries[id - 1].performed && |c.entries[id - 1].signers| >= cfg.quorum
  }

  /** `w` continues what the contract has executed: the next final batch, with ordered reads also in deposit nonces. */
  ghost predicate IsNext(cfg: Config, c: Contract, w: WireBatch) {
    && w.id == c.lastBatch + 1
    && w.deposits != []
    && Canonical(cfg, w.id) == Some(w)
    && (cfg.orderedReads ==> ConsecutiveWire(w.deposits, Succ(c.lastTx)))
  }

  /** A transfer that can be performed was signed by an honest relayer, so it is vouched for. */
  lemma PerformableIsVouched(cfg: Config, h: seq<Contract>, c: Contract, id: nat)
    requires Assumptions(cfg) && EntriesSound(cfg, h, c) && Performable(cfg, c, id)
    ensures Signable(cfg, h, c.entries[id - 1].action)
  {
    QuorumHasHonestSigner(cfg, c.entries[id - 1].signers);
  }

  lemma SameAction(c: Contract, k: nat, l: nat)
    requires ActionsDistinct(c) && k < |c.entries| && l < |c.entries|
    requires c.entries[k].action == c.entries[l].action
    ensures k == l
  {
  }

  /** A transfer that can be performed is the next one due: an earlier one has been performed already. */
  lemma PerformableIsNext(cfg: Config, h: seq<Contract>, c: Contract, id: nat)
    requires Assumptions(cfg) && HistoryGrows(cfg, h) && c == Latest(h)
    requires EntriesSound(cfg, h, c) && LogSound(cfg, c)
    requires Performable(cfg, c, id) && c.entries[id - 1].action.Transfer?
    ensures IsNext(cfg, c, c.entries[id - 1].action.batch)
  {
    var w := c.entries[id - 1].action.batch;
    PerformableIsVouched(cfg, h, c, id);
    VouchedIsNotAhead(cfg, h, w);
    if w.id <= c.lastBatch {
      var l := AlreadyPerformed(cfg, c, w);
      SameAction(c, l, id - 1);
    }
  }

  lemma PerformKeepsLog(cfg: Config, c: Contract, id: nat)
    requires LogSound(cfg, c) && Performable(cfg, c, id)
    requires c.entries[id - 1].action.Transfer? ==> IsNext(cfg, c, c.entries[id - 1].action.batch)
    ensures LogSound(cfg, PerformEntry(cfg, c, id))
  {
    var d := PerformEntry(cfg, c, id);
    if c.entries[id - 1].action.Transfer? {
      LogExtends(cfg, c, d, id);
    } else {
      LogPersists(cfg, c, d);
    }
  }

  /** `d` has the actions of `c`, none of them unperformed again, and possibly more. */
  ghost predicate Extends(c: Contract, d: Contract) {
    && |c.entries| <= |d.entries|
    && forall k :: 0 <= k < |c.entries| ==>
         d.entries[k].action == c.entries[k].action && (c.entries[k].performed ==> d.entries[k].performed)
  }

  lemma LoggedPersists(c: Contract, d: Contract, i: nat)
    requires Extends(c, d) && c.executed <= d.executed && Logged(c, i)
    ensures Logged(d, i) && BatchAt(d, i) == BatchAt(c, i)
  {
    assert d.executed[i] == c.executed[i];
  }

  lemma InOrderPersists(cfg: Config, c: Contract, d: Contract, i: nat)
    requires Extends(c, d) && c.executed <= d.executed
    requires InOrder(cfg, c, i) && (i > 0 ==> Logged(c, i - 1))
    ensures InOrder(cfg, d, i)
  {
    LoggedPersists(c, d, i);
    if i > 0 {
      LoggedPersists(c, d, i - 1);
    }
  }

  /** Entries that only gain signatures, performs or successors leave the log in order. */
  lemma LogPersists(cfg: Config, c: Contract, d: Contract)
    requires LogSound(cfg, c) && Extends(c, d) && c.executed <= d.executed
    ensures forall i :: 0 <= i < |c.executed| ==> InOrder(cfg, d, i)
    ensures TxBefore(cfg, d, |c.executed|) == c.lastTx
  {
    forall i | 0 <= i < |c.executed| ensures InOrder(cfg, d, i) {
      assert i > 0 ==> InOrder(cfg, c, i - 1);
      InOrderPersists(cfg, c, d, i);
    }
    var n := |c.executed|;
    if n > 0 {
      assert InOrder(cfg, c, n - 1);
      LoggedPersists(c, d, n - 1);
    }
  }

  /** A batch that is next and logged last is in order. */
  lemma LastInOrder(cfg: Config, d: Contract, n: nat, id: nat, c: Contract)
    requires |d.executed| == n + 1 && d.executed[n] == id && 1 <= id <= |d.entries|
    requires d.entries[id - 1].performed && d.entries[id - 1].action.Transfer?
    requires IsNext(cfg, c, d.entries[id - 1].action.batch) && TxBefore(cfg, d, n) == c.lastTx
    requires c.lastBatch == cfg.genesis.lastBatch + n
    ensures BatchAt(d, n) == d.entries[id - 1].action.batch && InOrder(cfg, d, n)
    ensures TxBefore(cfg, d, n + 1) == LastNonce(d.entries[id - 1].action.batch, c.lastTx)
  {
    assert Logged(d, n);
  }

  lemma LogExtends(cfg: Config, c: Contract, d: Contract, id: nat)
    requires LogSound(cfg, c) && Extends(c, d)
    requires 1 <= id <= |d.entries| && d.entries[id - 1].performed && d.entries[id - 1].action.Transfer?
    requires IsNext(cfg, c, d.entries[id - 1].action.batch)
    requires d.lastBatch == c.lastBatch + 1 && d.lastTx == LastNonce(d.entries[id - 1].action.batch, c.lastTx)
    requires d.executed == c.executed + [id]
    ensures LogSound(cfg, d)
  {
    LogPersists(cfg, c, d);
    LastInOrder(cfg, d, |c.executed|, id, c);
  }

  // ------------------------------------------------- every event keeps it

  /** What was vouched for stays vouched for as history goes on. */
  lemma VouchedPersists(cfg: Config, h: seq<Contract>, c: Contract, w: WireBatch)
    requires Vouched(cfg, h, w)
    ensures Vouched(cfg, h + [c], w)
  {
    var i: nat, j: nat :| VouchedAt(cfg, h, w, i, j);
    assert VouchedAt(cfg, h + [c], w, i, j);
  }

  lemma SignablePersists(cfg: Config, h: seq<Contract>, c: Contract, action: Action)
    requires Signable(cfg, h, action)
    ensures Signable(cfg, h + [c], action)
  {
    if action.Transfer? {
      VouchedPersists(cfg, h, c, action.batch);
    }
  }

  lemma HistoryExtends(cfg: Config, h: seq<Contract>, c: Contract)
    requires HistoryGrows(cfg, h) && Grows(Latest(h), c)
    ensures HistoryGrows(cfg, h + [c])
  {
    var h' := h + [c];
    forall i, j | 0 <= i <= j < |h'| ensures Grows(h'[i], h'[j]) {
      if i < |h| == j {
        assert Grows(h[i], Latest(h));
      }
    }
  }

  lemma TxStaysSound(cfg: Config, h: seq<Contract>, c: Contract, r: Id, tx: Tx)
    requires TxSound(cfg, h, r, tx) && Grows(Latest(h), c)
    ensures TxSound(cfg, h + [c], r, tx)
  {
    if r in cfg.honest && tx.BridgeTx? {
      match tx.call
      case ProposeTransfer(args) => VouchedPersists(cfg, h, c, ReadProposal(args).value);
      case SignAction(id) => SignablePersists(cfg, h, c, Latest(h).entries[id - 1].action);
      case PerformAction(_) =>
    }
  }

  lemma RelayerOutlivesContractStep(cfg: Config, h: seq<Contract>, c: Contract, s: State)
    requires RelayerSound(cfg, h, s) && Grows(Latest(h), c)
    ensures RelayerSound(cfg, h + [c], s)
  {
    if s.step != GettingPendingBatch {
      VouchedPersists(cfg, h, c, WireOf(s.batch.value));
    }
  }

  /** Adding an action or a signature, or performing: what the contract step owes to the invariant. */
  ghost predicate StepsTo(cfg: Config, h: seq<Contract>, d: Contract) {
    Grows(Latest(h), d) && EntriesSound(cfg, h, d) && LogSound(cfg, d)
  }

  lemma AddActionKeeps(cfg: Config, h: seq<Contract>, sender: Id, action: Action)
    requires EntriesSound(cfg, h, Latest(h)) && LogSound(cfg, Latest(h))
    requires sender in cfg.honest + cfg.faulty
    requires sender in cfg.honest ==> Signable(cfg, h, action)
    ensures StepsTo(cfg, h, AddAction(cfg, Latest(h), sender, action))
  {
    var c := Latest(h);
    var d := AddAction(cfg, c, sender, action);
    LogPersists(cfg, c, d);
  }

  lemma AddSignerKeeps(cfg: Config, h: seq<Contract>, sender: Id, id: nat)
    requires EntriesSound(cfg, h, Latest(h)) && LogSound(cfg, Latest(h))
    requires sender in cfg.honest + cfg.faulty
    requires sender in cfg.honest ==>
               1 <= id <= |Latest(h).entries| && Signable(cfg, h, Latest(h).entries[id - 1].action)
    ensures StepsTo(cfg, h, AddSigner(Latest(h), sender, id))
  {
    var c := Latest(h);
    var d := AddSigner(c, sender, id);
    LogPersists(cfg, c, d);
    if d != c {
      SubsetCardinality(c.entries[id - 1].signers, d.entries[id - 1].signers);
    }
  }

  lemma PerformKeepsEntries(cfg: Config, h: seq<Contract>, c: Contract, id: nat)
    requires EntriesSound(cfg, h, c) && Performable(cfg, c, id)
    requires c.entries[id - 1].action.Transfer? ==> c.entries[id - 1].action.batch.id > c.lastBatch
    ensures EntriesSound(cfg, h, PerformEntry(cfg, c, id)) && Grows(c, PerformEntry(cfg, c, id))
  {
    OnlyMarked(cfg, c, id);
    var d := PerformEntry(cfg, c, id);
    forall k | 0 <= k < |d.entries| && d.entries[k].signers * cfg.honest != {}
      ensures Signable(cfg, h, d.entries[k].action)
    {
      assert c.entries[k].signers * cfg.honest != {};
    }
  }

  /** Performing marks the action and leaves every entry's action and signers alone. */
  lemma OnlyMarked(cfg: Config, c: Contract, id: nat)
    requires Performable(cfg, c, id)
    ensures var d := PerformEntry(cfg, c, id);
            && |d.entries| == |c.entries|
            && forall k :: 0 <= k < |c.entries| ==>
                 && d.entries[k].action == c.entries[k].action && d.entries[k].signers == c.entries[k].signers
                 && (d.entries[k].performed <==> c.entries[k].performed || k == id - 1)
  {
  }

  lemma PerformKeeps(cfg: Config, h: seq<Contract>, id: nat)
    requires Assumptions(cfg) && HistoryGrows(cfg, h)
    requires EntriesSound(cfg, h, Latest(h)) && LogSound(cfg, Latest(h))
    ensures StepsTo(cfg, h, PerformEntry(cfg, Latest(h), id))
  {
    var c := Latest(h);
    if Performable(cfg, c, id) {
      if c.entries[id - 1].action.Transfer? {
        PerformableIsNext(cfg, h, c, id);
      }
      PerformKeepsLog(cfg, c, id);
      PerformKeepsEntries(cfg, h, c, id);
    }
  }

  lemma ApplyKeeps(cfg: Config, h: seq<Contract>, sender: Id, tx: Tx)
    requires Assumptions(cfg) && HistoryGrows(cfg, h)
    requires EntriesSound(cfg, h, Latest(h)) && LogSound(cfg, Latest(h))
    requires TxSound(cfg, h, sender, tx)
    ensures StepsTo(cfg, h, Apply(cfg, Latest(h), sender, tx))
  {
    match tx
    case ProposeSetStatusTx(batchId, statuses) => AddActionKeeps(cfg, h, sender, SetStatus(batchId, statuses));
    case BridgeTx(ProposeTransfer(args)) =>
      if ReadProposal(args).Some? {
        AddActionKeeps(cfg, h, sender, Transfer(ReadProposal(args).value));
      }
    case BridgeTx(SignAction(id)) => AddSignerKeeps(cfg, h, sender, id);
    case BridgeTx(PerformAction(id)) => PerformKeeps(cfg, h, id);
  }

  lemma EntriesStaySound(cfg: Config, h: seq<Contract>, c: Contract)
    requires EntriesSound(cfg, h, c)
    ensures EntriesSound(cfg, h + [c], c)
  {
    forall k | 0 <= k < |c.entries| && c.entries[k].signers * cfg.honest != {}
      ensures Signable(cfg, h + [c], c.entries[k].action)
    {
      SignablePersists(cfg, h, c, c.entries[k].action);
    }
  }

  lemma DeliveryKeepsInvariant(cfg: Config, s: System, s': System, r: Id, tx: Tx)
    requires Assumptions(cfg) && Invariant(cfg, s) && ContractStep(cfg, s, s', r, tx)
    ensures Invariant(cfg, s')
  {
    var h := s.history;
    var c := Apply(cfg, Latest(h), r, tx);
    assert TxSound(cfg, h, (r, tx).0, (r, tx).1);
    ApplyKeeps(cfg, h, r, tx);
    HistoryExtends(cfg, h, c);
    EntriesStaySound(cfg, h, c);
    forall p | p in s.pool ensures TxSound(cfg, h + [c], p.0, p.1) {
      TxStaysSound(cfg, h, c, p.0, p.1);
    }
    forall q | q in s.relayers ensures RelayerSound(cfg, h + [c], s.relayers[q]) {
      RelayerOutlivesContractStep(cfg, h, c, s.relayers[q]);
    }
  }

  lemma RelayerKeepsInvariant(cfg: Config, s: System, s': System, r: Id, a: Answers)
    requires Invariant(cfg, s) && RelayerStep(cfg, s, s', r, a)
    ensures Invariant(cfg, s')
  {
    var before := s.relayers[r];
    var (next, call) := Execute(cfg.maxRetries, before, a);
    ExecuteKeeps(cfg.maxRetries, before, a);
    RelayerStaysSound(cfg, s.history, before, a, next);
    if call.Some? {
      CallIsSound(cfg, s.history, before, a, r, call.value);
    }
  }

  lemma StatusUpdateKeepsInvariant(cfg: Config, s: System, s': System, r: Id, tx: Tx)
    requires Invariant(cfg, s) && r in cfg.honest && OtherHalfStep(s, s', r, tx)
    ensures Invariant(cfg, s')
  {
    if tx.BridgeTx? && tx.call.SignAction? {
      var k :| 0 <= k < |s.history| && IsSetStatus(s.history[k], tx.call.actionId);
      assert Grows(s.history[k], Latest(s.history));
    }
    assert TxSound(cfg, s.history, r, tx);
  }

  // Here and below, equations pass what holds on as one fact each.
  lemma NextKeepsInvariant(cfg: Config, s: System, s': System, e: Event)
    requires Assumptions(cfg) && Invariant(cfg, s) == true && Next(cfg, s, s', e) == true
    ensures Invariant(cfg, s')
  {
    match e
    case Relays(r, a) => RelayerKeepsInvariant(cfg, s, s', r, a);
    case UpdatesStatus(r, tx) => StatusUpdateKeepsInvariant(cfg, s, s', r, tx);
    case Misbehaves(r, tx) => assert TxSound(cfg, s.history, r, tx);
    case Delivers(r, tx) => DeliveryKeepsInvariant(cfg, s, s', r, tx);
  }

  lemma InitSatisfiesInvariant(cfg: Config, s: System)
    requires Assumptions(cfg) && Init(cfg, s)
    ensures Invariant(cfg, s)
  {
  }

  /** One step of an execution, on its own. */
  lemma StepOf(cfg: Config, systems: seq<System>, events: seq<Event>, i: nat)
    requires IsExecution(cfg, systems, events) && i < |events|
    ensures Next(cfg, systems[i], systems[i + 1], events[i])
  {
  }

  lemma {:induction false} InvariantHolds(cfg: Config, systems: seq<System>, events: seq<Event>, n: nat)
    requires Assumptions(cfg) && IsExecution(cfg, systems, events) && n <= |events|
    ensures Invariant(cfg, systems[n]) == true
  {
    if n == 0 {
      InitSatisfiesInvariant(cfg, systems[0]);
    } else {
      InvariantHolds(cfg, systems, events, n - 1);
      StepOf(cfg, systems, events, n - 1);
      NextKeepsInvariant(cfg, systems[n - 1], systems[n], events[n - 1]);
    }
  }

  // ------------------------------------------------------------ theorems

  lemma LogIsDistinct(cfg: Config, c: Contract)
    requires LogSound(cfg, c)
    ensures Distinct(c.executed)
  {
    forall i, j | 0 <= i < j < |c.executed| ensures c.executed[i] != c.executed[j] {
      assert InOrder(cfg, c, i) && InOrder(cfg, c, j);
    }
  }

  /** The transfers the contract has performed are the final Ethereum batches, all of them up to the last executed
      one, each once, in order and unaltered; when the counters are read in order their deposit nonces continue
      without a gap. */
  lemma ExecutedExactlyOnceInOrder(cfg: Config, systems: seq<System>, events: seq<Event>, n: nat)
    requires Assumptions(cfg) && IsExecution(cfg, systems, events) && n <= |events|
    ensures LogSound(cfg, Latest(systems[n].history))
    ensures Distinct(Latest(systems[n].history).executed)
  {
    InvariantHolds(cfg, systems, events, n);
    LogIsDistinct(cfg, Latest(systems[n].history));
  }

  /** Every performed action carries a quorum of signatures, and at least as many honest relayers as the quorum exceeds
      the faulty ones have vouched for it. */
  lemma PerformedWasVouchedFor(cfg: Config, systems: seq<System>, events: seq<Event>, n: nat, id: nat)
    requires Assumptions(cfg) && IsExecution(cfg, systems, events) && n <= |events|
    requires var c := Latest(systems[n].history); 1 <= id <= |c.entries| && c.entries[id - 1].performed
    ensures var e := Latest(systems[n].history).entries[id - 1];
            && |e.signers| >= cfg.quorum
            && |e.signers * cfg.honest| >= cfg.quorum - |cfg.faulty|
            && Signable(cfg, systems[n].history, e.action)
  {
    InvariantHolds(cfg, systems, events, n);
    QuorumHasHonestSigner(cfg, Latest(systems[n].history).entries[id - 1].signers);
  }

  lemma SignedIsOwnBatch(cfg: Config, h: seq<Contract>, s: State, a: Answers, id: u64)
    requires HistoryGrows(cfg, h) && ReadsActionId(h, s, a)
    requires s.batch.Some? && a.actionId == Some(id) && id != INVALID_ACTION_ID
    ensures NamesAction(Latest(h), s.(actionId := id))
  {
    AnsweredActionIsCurrent(cfg, h, s, a, id);
  }

  /** Whatever an honest relayer signs as a transfer was proposed for exactly the batch it has stored, a final batch
      that followed the last executed one when it was fetched. */
  lemma HonestSignsOnlyItsBatch(cfg: Config, systems: seq<System>, events: seq<Event>, n: nat, r: Id, a: Answers,
                                id: u64)
    requires Assumptions(cfg) && IsExecution(cfg, systems, events) && n <= |events|
    requires r in systems[n].relayers && HonestAnswers(cfg, systems[n].history, systems[n].relayers[r], a)
    requires Execute(cfg.maxRetries, systems[n].relayers[r], a).1 == Some(SignAction(id))
    ensures NamesAction(Latest(systems[n].history), systems[n].relayers[r].(actionId := id))
    ensures HoldsVouched(cfg, systems[n].history, systems[n].relayers[r])
  {
    InvariantHolds(cfg, systems, events, n);
    ExecuteKeeps(cfg.maxRetries, systems[n].relayers[r], a);
    SignedIsOwnBatch(cfg, systems[n].history, systems[n].relayers[r], a, id);
  }
}
