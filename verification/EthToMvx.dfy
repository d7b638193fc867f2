/**
 One relayer of the Ethereum -> MultiversX half-bridge: the five steps over the bridge executor,
 driven by the state machine. The clients are replaced by the outcomes of the calls a step makes.
 */
module EthToMvx {
  import opened Common
  import opened Batches
  import opened BatchLists
  import BV = BalanceValidator
  import opened Cumulation
  import opened TokenCheck
  import Framing

  datatype StepId =
    | GettingPendingBatch
    | ProposingTransfer
    | SigningProposedTransfer
    | WaitingForQuorum
    | PerformingActionId

  const ALL_STEPS :=
    [GettingPendingBatch, ProposingTransfer, SigningProposedTransfer, WaitingForQuorum, PerformingActionId]

  function Identifier(s: StepId): string {
    match s
    case GettingPendingBatch => "get pending batch from Ethereum"
    case ProposingTransfer => "propose transfer"
    case SigningProposedTransfer => "sign proposed transfer"
    case WaitingForQuorum => "wait for quorum"
    case PerformingActionId => "perform action"
  }

  /** Outcomes of the client calls of one step execution; `None` and `false` are errors where the call can fail.
      `tokensAvailable` is the outcome of CheckAvailableTokens on the lists it is given. */
  datatype Answers = Answers(
    lastBatchId: Option<u64>,
    fetched: Option<(Batch, bool)>,
    events: Option<seq<Framing.ScDepositEvent>>,
    lastTxId: Option<u64>,
    tokensAvailable: ArgLists -> bool,
    wasProposed: Option<bool>,
    isLeader: bool,
    proposeSent: bool,
    actionId: Option<u64>,
    wasSigned: Option<bool>,
    signSent: bool,
    quorumReached: Option<bool>,
    wasPerformed: Option<bool>,
    performSent: bool)

  /** A transaction the step asks the MultiversX client to send. */
  datatype Call = ProposeTransfer(args: seq<Arg>) | SignAction(actionId: u64) | PerformAction(actionId: u64)

  datatype State = State(step: StepId, batch: Option<Batch>, actionId: u64, quorumRetries: nat)

  // -------------------------------------------------------- specification

  /** GetAndStoreBatchFromEthereum: the batch to store, if there is a final one to be had. */
  function Fetch(nonce: u64, a: Answers): Option<Batch> {
    if a.fetched.None? then None
    else
      var (batch, isFinal) := a.fetched.value;
      if batch.id != nonce || batch.deposits == [] || !isFinal || a.events.None? then None
      else Some(WithMetadata(batch, a.events.value))
  }

  function GetPending(s: State, a: Answers): State {
    var reset := s.(quorumRetries := 0);
    if a.lastBatchId.None? then reset
    else
      match Fetch(Succ(a.lastBatchId.value), a)
      case None => reset
      case Some(batch) =>
        var stored := reset.(batch := Some(batch));
        if a.lastTxId.Some? && Consecutive(batch.deposits, Succ(a.lastTxId.value))
           && a.tokensAvailable(ListsOf(batch.deposits, ToMultiversX))
        then stored.(step := ProposingTransfer)
        else stored
  }

  function Propose(s: State, a: Answers): (State, Option<Call>) {
    var restart := s.(step := GettingPendingBatch);
    if s.batch.None? || a.wasProposed.None? then (restart, None)
    else if a.wasProposed.value then (s.(step := SigningProposedTransfer), None)
    else if !a.isLeader then (s, None)
    else
      (if a.proposeSent then s.(step := SigningProposedTransfer) else restart,
       Some(ProposeTransfer(ProposalArgs(WireOf(s.batch.value)))))
  }

  function Sign(s: State, a: Answers): (State, Option<Call>) {
    var restart := s.(step := GettingPendingBatch);
    if s.batch.None? || a.actionId.None? then (restart, None)
    else
      var id := a.actionId.value;
      var stored := s.(actionId := id);
      if id == INVALID_ACTION_ID || a.wasSigned.None? then (stored.(step := GettingPendingBatch), None)
      else if a.wasSigned.value then (stored.(step := WaitingForQuorum), None)
      else (stored.(step := if a.signSent then WaitingForQuorum else GettingPendingBatch), Some(SignAction(id)))
  }

  function WaitForQuorum(max: nat, s: State, a: Answers): State {
    if s.quorumRetries >= max then s.(step := GettingPendingBatch)
    else
      var counted := s.(quorumRetries := s.quorumRetries + 1);
      match a.quorumReached
      case None => counted.(step := GettingPendingBatch)
      case Some(reached) => if reached then counted.(step := PerformingActionId) else counted
  }

  function Perform(s: State, a: Answers): (State, Option<Call>) {
    var restart := s.(step := GettingPendingBatch);
    if a.wasPerformed.None? || a.wasPerformed.value then (restart, None)
    else if !a.isLeader then (s, None)
    else if s.batch.None? then (restart, None)
    else (if a.performSent then s else restart, Some(PerformAction(s.actionId)))
  }

  function Execute(max: nat, s: State, a: Answers): (State, Option<Call>) {
    match s.step
    case GettingPendingBatch => (GetPending(s, a), None)
    case ProposingTransfer => Propose(s, a)
    case SigningProposedTransfer => Sign(s, a)
    case WaitingForQuorum => (WaitForQuorum(max, s, a), None)
    case PerformingActionId => Perform(s, a)
  }

  // ------------------------------------------------------- implementation

  /** createMachineStates: no identifier is registered twice and every step can be found under its own. */
  method CreateMachineStates() returns (r: Option<map<string, StepId>>)
    ensures r.Some? && forall s :: Identifier(s) in r.value && r.value[Identifier(s)] == s
  {
    var machineStates: map<string, StepId> := map[];
    for k := 0 to |ALL_STEPS|
      invariant machineStates.Keys == set i | 0 <= i < k :: Identifier(ALL_STEPS[i])
      invariant forall i :: 0 <= i < k ==> machineStates[Identifier(ALL_STEPS[i])] == ALL_STEPS[i]
    {
      var id := Identifier(ALL_STEPS[k]);
      IdentifiersDiffer(k);
      if id in machineStates {
        return None;
      }
      machineStates := machineStates[id := ALL_STEPS[k]];
    }
    forall s
      ensures Identifier(s) in machineStates && machineStates[Identifier(s)] == s
    {
      var i := StepIndex(s);
      assert ALL_STEPS[i] == s;
    }
    r := Some(machineStates);
  }

  function StepIndex(s: StepId): (i: nat)
    ensures i < |ALL_STEPS| && ALL_STEPS[i] == s
  {
    match s
    case GettingPendingBatch => 0
    case ProposingTransfer => 1
    case SigningProposedTransfer => 2
    case WaitingForQuorum => 3
    case PerformingActionId => 4
  }

  lemma IdentifiersDiffer(k: nat)
    requires k < |ALL_STEPS|
    ensures forall i :: 0 <= i < k ==> Identifier(ALL_STEPS[i]) != Identifier(ALL_STEPS[k])
  {
    assert Identifier(GettingPendingBatch)[0] == 'g';
    assert Identifier(SigningProposedTransfer)[0] == 's';
    assert Identifier(WaitingForQuorum)[0] == 'w';
    assert Identifier(ProposingTransfer)[1] == 'r';
    assert Identifier(PerformingActionId)[1] == 'e';
  }

  class Relayer {
    const max: nat
    const steps: map<string, StepId>
    var currentStep: Option<StepId>
    var batch: Option<Batch>
    var actionId: u64
    var quorumRetries: nat

    /** All steps are registered and the machine has a current one. */
    ghost predicate Valid()
      reads this
    {
      && currentStep.Some?
      && forall s :: Identifier(s) in steps && steps[Identifier(s)] == s
    }

    ghost function View(): State
      reads this
      requires Valid()
    {
      State(currentStep.value, batch, actionId, quorumRetries)
    }

    constructor (max: nat, registered: map<string, StepId>)
      requires forall s :: Identifier(s) in registered && registered[Identifier(s)] == s
      ensures Valid() && View() == Initial() && this.max == max
    {
      this.max, steps := max, registered;
      currentStep := Some(GettingPendingBatch);
      batch, actionId, quorumRetries := None, 0, 0;
    }

    /** executeStep: runs the current step and looks its successor up; a miss would leave the machine without one. */
    method ExecuteStep(a: Answers) returns (call: Option<Call>)
      requires Valid()
      modifies this
      ensures Valid()
      ensures (View(), call) == Execute(max, old(View()), a)
    {
      call := None;
      var next: string;
      match currentStep.value {
        case GettingPendingBatch => next := ExecuteGetPending(a);
        case ProposingTransfer => next, call := ExecutePropose(a);
        case SigningProposedTransfer => next, call := ExecuteSign(a);
        case WaitingForQuorum => next := ExecuteWaitForQuorum(a);
        case PerformingActionId => next, call := ExecutePerform(a);
      }
      currentStep := if next in steps then Some(steps[next]) else None;
    }

    method ExecuteGetPending(a: Answers) returns (next: string)
      modifies this`batch, this`quorumRetries
      ensures var s := GetPending(State(GettingPendingBatch, old(batch), actionId, old(quorumRetries)), a);
              next == Identifier(s.step) && batch == s.batch && quorumRetries == s.quorumRetries
    {
      next := Identifier(GettingPendingBatch);
      quorumRetries := 0;
      if a.lastBatchId.None? {
        return;
      }
      var stored := GetAndStoreBatchFromEthereum(Succ(a.lastBatchId.value), a);
      if !stored {
        return;
      }
      if a.lastTxId.None? {
        return;
      }
      var noncesOk := VerifyDepositNonces(batch.value.deposits, a.lastTxId.value);
      if !noncesOk {
        return;
      }
      var argLists := ExtractListEthToMvx(batch.value.deposits);
      if !a.tokensAvailable(argLists) {
        return;
      }
      next := Identifier(ProposingTransfer);
    }

    method GetAndStoreBatchFromEthereum(nonce: u64, a: Answers) returns (ok: bool)
      modifies this`batch
      ensures ok == Fetch(nonce, a).Some?
      ensures batch == if ok then Fetch(nonce, a) else old(batch)
    {
      if a.fetched.None? {
        return false;
      }
      var (fetched, isFinal) := a.fetched.value;
      var isBatchInvalid := fetched.id != nonce || |fetched.deposits| == 0 || !isFinal;
      if isBatchInvalid || a.events.None? {
        return false;
      }
      var withMetadata := AttachMetadata(fetched, a.events.value);
      batch := Some(withMetadata);
      return true;
    }

    method ExecutePropose(a: Answers) returns (next: string, call: Option<Call>)
      ensures var (s, c) := Propose(State(ProposingTransfer, batch, actionId, quorumRetries), a);
              next == Identifier(s.step) && call == c
    {
      call := None;
      if batch.None? || a.wasProposed.None? {
        return Identifier(GettingPendingBatch), None;
      }
      if a.wasProposed.value {
        return Identifier(SigningProposedTransfer), None;
      }
      if !a.isLeader {
        return Identifier(ProposingTransfer), None;
      }
      var args := ProposeTransferArgs(batch.value);
      call := Some(ProposeTransfer(args));
      next := Identifier(if a.proposeSent then SigningProposedTransfer else GettingPendingBatch);
    }

    method ExecuteSign(a: Answers) returns (next: string, call: Option<Call>)
      modifies this`actionId
      ensures var (s, c) := Sign(State(SigningProposedTransfer, batch, old(actionId), quorumRetries), a);
              next == Identifier(s.step) && call == c && actionId == s.actionId
    {
      call := None;
      next := Identifier(GettingPendingBatch);
      if batch.None? || a.actionId.None? {
        return;
      }
      actionId := a.actionId.value;
      if actionId == INVALID_ACTION_ID || a.wasSigned.None? {
        return;
      }
      if a.wasSigned.value {
        return Identifier(WaitingForQuorum), None;
      }
      call := Some(SignAction(actionId));
      if a.signSent {
        next := Identifier(WaitingForQuorum);
      }
    }

    method ExecuteWaitForQuorum(a: Answers) returns (next: string)
      modifies this`quorumRetries
      ensures var s := WaitForQuorum(max, State(WaitingForQuorum, batch, actionId, old(quorumRetries)), a);
              next == Identifier(s.step) && quorumRetries == s.quorumRetries
    {
      if quorumRetries >= max {
        return Identifier(GettingPendingBatch);
      }
      quorumRetries := quorumRetries + 1;
      if a.quorumReached.None? {
        return Identifier(GettingPendingBatch);
      }
      next := Identifier(if a.quorumReached.value then PerformingActionId else WaitingForQuorum);
    }

    method ExecutePerform(a: Answers) returns (next: string, call: Option<Call>)
      ensures var (s, c) := Perform(State(PerformingActionId, batch, actionId, quorumRetries), a);
              next == Identifier(s.step) && call == c
    {
      call := None;
      next := Identifier(GettingPendingBatch);
      if a.wasPerformed.None? || a.wasPerformed.value {
        return;
      }
      if !a.isLeader {
        return Identifier(PerformingActionId), None;
      }
      if batch.None? {
        return;
      }
      call := Some(PerformAction(actionId));
      if a.performSent {
        next := Identifier(PerformingActionId);
      }
    }
  }

  // ------------------------------------------------------- whole-run theorems

  function Initial(): State {
    State(GettingPendingBatch, None, 0, 0)
  }

  /** `states` is the run of the machine on the answers in `run`. */
  ghost predicate IsRun(max: nat, run: seq<Answers>, states: seq<State>) {
    && |states| == |run| + 1
    && states[0] == Initial()
    && forall i :: 0 <= i < |run| ==> states[i + 1] == Execute(max, states[i], run[i]).0
  }

  /** The gate of the first step: what held of the answers when `b` was let into the protocol. */
  ghost predicate Admitted(b: Batch, a: Answers) {
    && a.lastBatchId.Some? && a.fetched.Some? && a.events.Some? && a.lastTxId.Some?
    && a.fetched.value.1
    && b == WithMetadata(a.fetched.value.0, a.events.value)
    && b.id == Succ(a.lastBatchId.value)
    && b.deposits != []
    && Consecutive(b.deposits, Succ(a.lastTxId.value))
    && a.tokensAvailable(ListsOf(b.deposits, ToMultiversX))
  }

  /** The answers about tokens are those of the executor's check on what the clients say. */
  ghost predicate ChecksTokens(a: Answers, ch: BV.Clients, end: u64)
    requires BV.WalksEnd(ch, end)
  {
    forall arg :: a.tokensAvailable(arg) ==> Passes(ch, arg, end)
  }

  /** A batch is admitted only if every token of its own lists passed the check with its sum. When the tokens stand for
      each other one to one the safe can therefore pay every deposit, one after the other. */
  lemma AdmittedTokensPass(b: Batch, a: Answers, ch: BV.Clients, end: u64, k: nat)
    requires BV.WalksEnd(ch, end) && ChecksTokens(a, ch, end) && Admitted(b, a) && k <= |b.deposits|
    ensures var arg := ListsOf(b.deposits, ToMultiversX);
            && Passes(ch, arg, end)
            && ((forall m :: !Ambiguous(arg.ethTokens, arg.mvxTokens, m)) ==>
                  Pay(SafeOf(ch.onMvx, arg.mvxTokens), MintedOf(ch.onMvx, arg.mvxTokens),
                      arg.mvxTokens[..k], arg.amounts[..k]).Some?)
  {
    var arg := ListsOf(b.deposits, ToMultiversX);
    PassedIsPaidOnMultiversXIff(ch, arg, end);
    var safe, minted := SafeOf(ch.onMvx, arg.mvxTokens), MintedOf(ch.onMvx, arg.mvxTokens);
    if Pay(safe, minted, arg.mvxTokens, arg.amounts).Some? {
      PayPrefix(safe, minted, arg.mvxTokens, arg.amounts, k);
    }
  }

  /** What one execution does to the stored batch and action ID, for the state it leads to. */
  ghost predicate Keeps(s: State, a: Answers, s': State) {
    KeepsBatch(s, a, s') && KeepsAction(s, a, s')
  }

  ghost predicate KeepsBatch(s: State, a: Answers, s': State) {
    s'.step != GettingPendingBatch ==>
      if s.step == GettingPendingBatch then s'.batch.Some? && Admitted(s'.batch.value, a)
      else s'.batch == s.batch
  }

  ghost predicate KeepsAction(s: State, a: Answers, s': State) {
    s'.step in {WaitingForQuorum, PerformingActionId} ==>
      && s'.batch == s.batch
      && if s.step == SigningProposedTransfer
         then a.actionId == Some(s'.actionId) && s'.actionId != INVALID_ACTION_ID
         else s.step in {WaitingForQuorum, PerformingActionId} && s'.actionId == s.actionId
  }

  /** What a call sent from a state says about the state and the answers. */
  ghost predicate Justified(s: State, a: Answers, call: Call) {
    && s.batch.Some?
    && match call
       case ProposeTransfer(args) =>
         && s.step == ProposingTransfer && a.isLeader && a.wasProposed == Some(false)
         && args == ProposalArgs(WireOf(s.batch.value))
       case SignAction(id) =>
         && s.step == SigningProposedTransfer && a.wasSigned == Some(false)
         && a.actionId == Some(id) && id != INVALID_ACTION_ID
       case PerformAction(id) =>
         && s.step == PerformingActionId && a.isLeader && a.wasPerformed == Some(false)
         && id == s.actionId
  }

  lemma ExecuteKeeps(max: nat, s: State, a: Answers)
    ensures Keeps(s, a, Execute(max, s, a).0)
    ensures Execute(max, s, a).1.Some? ==> Justified(s, a, Execute(max, s, a).1.value)
  {
  }

  /** `j` is the last execution of the first step before state `n`, and it admitted the batch stored there. */
  ghost predicate AdmittedAt(run: seq<Answers>, states: seq<State>, n: nat, j: nat)
    requires n < |states| == |run| + 1
  {
    && j < n
    && states[j].step == GettingPendingBatch
    && (forall i :: j < i <= n ==> states[i].step != GettingPendingBatch)
    && states[n].batch.Some?
    && Admitted(states[n].batch.value, run[j])
  }

  /** `k` is the last execution of the signing step before state `n`; the action ID stored there was answered to it
      for the batch stored there. */
  ghost predicate IdentifiedAt(run: seq<Answers>, states: seq<State>, n: nat, k: nat)
    requires n < |states| == |run| + 1
  {
    && k < n
    && states[k].step == SigningProposedTransfer
    && (forall i :: k < i <= n ==> states[i].step in {WaitingForQuorum, PerformingActionId})
    && states[k].batch == states[n].batch
    && run[k].actionId == Some(states[n].actionId)
    && states[n].actionId != INVALID_ACTION_ID
  }

  /** Past the first step the machine works on a batch that passed every check the last time the first step ran. */
  lemma {:induction false} WorksOnAdmittedBatch(max: nat, run: seq<Answers>, states: seq<State>, n: nat)
    returns (j: nat)
    requires IsRun(max, run, states) && n <= |run|
    requires states[n].step != GettingPendingBatch
    ensures AdmittedAt(run, states, n, j)
  {
    ExecuteKeeps(max, states[n - 1], run[n - 1]);
    if states[n - 1].step == GettingPendingBatch {
      j := n - 1;
    } else {
      j := WorksOnAdmittedBatch(max, run, states, n - 1);
    }
  }

  /** In the quorum and perform steps the stored action ID is valid and was fetched for the stored batch. */
  lemma {:induction false} WorksOnIdentifiedAction(max: nat, run: seq<Answers>, states: seq<State>, n: nat)
    returns (k: nat)
    requires IsRun(max, run, states) && n <= |run|
    requires states[n].step in {WaitingForQuorum, PerformingActionId}
    ensures IdentifiedAt(run, states, n, k)
  {
    ExecuteKeeps(max, states[n - 1], run[n - 1]);
    if states[n - 1].step == SigningProposedTransfer {
      k := n - 1;
    } else {
      k := WorksOnIdentifiedAction(max, run, states, n - 1);
    }
  }

  /** What a relayer sends, and when: proposals and signatures only for an admitted batch, signatures only under the
      action ID answered for it, and performs only under an ID that was. */
  lemma CallsAreJustified(max: nat, run: seq<Answers>, states: seq<State>, n: nat) returns (j: nat)
    requires IsRun(max, run, states) && n < |run|
    requires Execute(max, states[n], run[n]).1.Some?
    ensures AdmittedAt(run, states, n, j)
    ensures var call := Execute(max, states[n], run[n]).1.value;
            && Justified(states[n], run[n], call)
            && (call.PerformAction? ==> exists k: nat :: IdentifiedAt(run, states, n, k))
  {
    ExecuteKeeps(max, states[n], run[n]);
    j := WorksOnAdmittedBatch(max, run, states, n);
    if states[n].step == PerformingActionId {
      var k := WorksOnIdentifiedAction(max, run, states, n);
    }
  }

  /** The counter is zero on every way into the quorum step and never exceeds its maximum. */
  lemma {:induction false} RetriesAreReset(max: nat, run: seq<Answers>, states: seq<State>, n: nat)
    requires IsRun(max, run, states) && n <= |run|
    ensures states[n].quorumRetries <= max
    ensures states[n].step in {ProposingTransfer, SigningProposedTransfer} ==> states[n].quorumRetries == 0
  {
    if n > 0 {
      RetriesAreReset(max, run, states, n - 1);
      assert states[n] == Execute(max, states[n - 1], run[n - 1]).0;
    }
  }

  /** While the machine keeps waiting, every execution has used one retry. */
  lemma {:induction false} WaitingCountsUp(max: nat, run: seq<Answers>, states: seq<State>, i: nat, j: nat)
    requires IsRun(max, run, states) && i <= j <= |run|
    requires forall k :: i <= k <= j ==> states[k].step == WaitingForQuorum
    ensures states[j].quorumRetries == states[i].quorumRetries + (j - i)
    decreases j
  {
    if i < j {
      WaitingCountsUp(max, run, states, i, j - 1);
      assert states[j] == WaitForQuorum(max, states[j - 1], run[j - 1]);
    }
  }

  /** No visit to the quorum step lasts longer than the configured number of retries plus one execution. */
  lemma QuorumVisitIsBounded(max: nat, run: seq<Answers>, states: seq<State>, i: nat, j: nat)
    requires IsRun(max, run, states) && i <= j <= |run| + 1
    requires forall k :: i <= k < j ==> states[k].step == WaitingForQuorum
    ensures j - i <= max + 1
  {
    if i < j {
      WaitingCountsUp(max, run, states, i, j - 1);
      RetriesAreReset(max, run, states, j - 1);
    }
  }
}
