/**
 One relayer of the MultiversX -> Ethereum half-bridge: ten steps, first bringing the transfer to Ethereum under
 gathered signatures, then bringing its outcome back as a status update on MultiversX.
 */
module MvxToEth {
  import opened Common
  import opened Batches
  import opened BatchLists

  datatype StepId =
    | GettingPendingBatch
    | SigningTransfer
    | WaitingForQuorumOnTransfer
    | PerformingTransfer
    | WaitingTransferConfirmation
    | ResolvingSetStatus
    | ProposingSetStatus
    | SigningSetStatus
    | WaitingForQuorumOnSetStatus
    | PerformingSetStatus

  const ALL_STEPS := [GettingPendingBatch, SigningTransfer, WaitingForQuorumOnTransfer, PerformingTransfer,
                      WaitingTransferConfirmation, ResolvingSetStatus, ProposingSetStatus, SigningSetStatus,
                      WaitingForQuorumOnSetStatus, PerformingSetStatus]

  function Identifier(s: StepId): string {
    match s
    case GettingPendingBatch => "get pending batch from MultiversX"
    case SigningTransfer => "sign proposed transfer"
    case WaitingForQuorumOnTransfer => "wait for quorum on transfer"
    case PerformingTransfer => "perform transfer"
    case WaitingTransferConfirmation => "wait transfer confirmating"
    case ResolvingSetStatus => "resolve set status"
    case ProposingSetStatus => "propose set status"
    case SigningSetStatus => "sign proposed set status"
    case WaitingForQuorumOnSetStatus => "wait for quorum on set status"
    case PerformingSetStatus => "perform set status"
  }

  /** Outcomes of the client calls of one step execution; `None` and `false` are errors where the call can fail.
      `tokensAvailable` is the outcome of CheckAvailableTokens on the lists it is given. */
  datatype Answers = Answers(
    pending: Option<Batch>,
    ethPerformed: Option<bool>,
    tokensAvailable: ArgLists -> bool,
    ethQuorumReached: Option<bool>,
    isLeader: bool,
    quorumSize: Option<nat>,
    transferSent: bool,
    statuses: Bytes,
    wasProposed: Option<bool>,
    proposeSent: bool,
    actionId: Option<u64>,
    wasSigned: Option<bool>,
    signSent: bool,
    mvxQuorumReached: Option<bool>,
    mvxPerformed: Option<bool>,
    performSent: bool)

  /** What a step asks the clients to send or to do. */
  datatype Call =
    | BroadcastSignature(hash: Bytes)
    | ExecuteTransfer(hash: Bytes, lists: ArgLists, batchId: u64, quorum: nat)
    | ClearSignatures
    | ProposeSetStatus(batchId: u64, statuses: Bytes)
    | SignAction(actionId: u64)
    | PerformAction(actionId: u64)

  /** `hash` stands for GenerateMessageHash. */
  datatype Config = Config(hash: (ArgLists, u64) -> Option<Bytes>, maxEth: nat, maxMvx: nat, maxProposed: nat)

  datatype State = State(
    step: StepId, batch: Option<Batch>, actionId: u64, msgHash: Bytes,
    ethRetries: nat, mvxRetries: nat, proposedRetries: nat)

  function HashOf(cfg: Config, b: Batch): Option<Bytes> {
    cfg.hash(ListsOf(b.deposits, FromMultiversX), b.id)
  }

  // ---------------------------------------------------------- specification

  function GetPending(s: State, a: Answers): State {
    var reset := s.(ethRetries := 0, mvxRetries := 0, proposedRetries := 0);
    if a.pending.None? then reset
    else
      var stored := reset.(batch := a.pending);
      if a.ethPerformed.None? then stored
      else if a.ethPerformed.value then stored.(step := ResolvingSetStatus)
      else if a.tokensAvailable(ListsOf(a.pending.value.deposits, FromMultiversX)) then stored.(step := SigningTransfer)
      else stored
  }

  function Restart(s: State): State {
    s.(step := GettingPendingBatch)
  }

  function SignTransfer(cfg: Config, s: State): (State, Option<Call>) {
    if s.batch.None? || HashOf(cfg, s.batch.value).None? then (Restart(s), None)
    else
      var hash := HashOf(cfg, s.batch.value).value;
      (s.(msgHash := hash, step := WaitingForQuorumOnTransfer), Some(BroadcastSignature(hash)))
  }

  function WaitForQuorumOnTransfer(cfg: Config, s: State, a: Answers): State {
    if s.ethRetries >= cfg.maxEth then Restart(s)
    else
      var counted := s.(ethRetries := s.ethRetries + 1);
      match a.ethQuorumReached
      case None => Restart(counted)
      case Some(reached) => if reached then counted.(step := PerformingTransfer) else counted
  }

  function PerformTransfer(s: State, a: Answers): (State, Option<Call>) {
    if s.batch.None? || a.ethPerformed.None? then (Restart(s), None)
    else if a.ethPerformed.value then (s.(step := ResolvingSetStatus), None)
    else if !a.isLeader then (s.(step := WaitingTransferConfirmation), None)
    else if a.quorumSize.None? then (Restart(s), None)
    else
      (if a.transferSent then s.(step := WaitingTransferConfirmation) else Restart(s),
       Some(ExecuteTransfer(s.msgHash, ListsOf(s.batch.value.deposits, FromMultiversX), s.batch.value.id,
                            a.quorumSize.value)))
  }

  function ResolveSetStatus(s: State, a: Answers): State {
    if s.batch.None? || a.pending.None? || a.statuses == [] then Restart(s)
    else
      s.(batch := Some(s.batch.value.(statuses := Resolved(a.statuses, |a.pending.value.statuses|))),
         step := ProposingSetStatus)
  }

  function Propose(cfg: Config, s: State, a: Answers): (State, Option<Call>) {
    if s.batch.None? || s.proposedRetries >= cfg.maxProposed then (Restart(s), None)
    else
      var counted := s.(proposedRetries := s.proposedRetries + 1);
      if a.wasProposed.None? then (Restart(counted), None)
      else if a.wasProposed.value then (counted.(step := SigningSetStatus), None)
      else if !a.isLeader then (counted, None)
      else
        (if a.proposeSent then counted.(step := SigningSetStatus) else Restart(counted),
         Some(ProposeSetStatus(s.batch.value.id, s.batch.value.statuses)))
  }

  function SignStatus(s: State, a: Answers): (State, Option<Call>) {
    if s.batch.None? || a.actionId.None? then (Restart(s), None)
    else
      var stored := s.(actionId := a.actionId.value);
      if stored.actionId == INVALID_ACTION_ID || a.wasSigned.None? then (Restart(stored), None)
      else if a.wasSigned.value then (stored.(step := WaitingForQuorumOnSetStatus), None)
      else
        (if a.signSent then stored.(step := WaitingForQuorumOnSetStatus) else Restart(stored),
         Some(SignAction(stored.actionId)))
  }

  function WaitForQuorumOnSetStatus(cfg: Config, s: State, a: Answers): State {
    if s.mvxRetries >= cfg.maxMvx then Restart(s)
    else
      var counted := s.(mvxRetries := s.mvxRetries + 1);
      match a.mvxQuorumReached
      case None => Restart(counted)
      case Some(reached) => if reached then counted.(step := PerformingSetStatus) else counted
  }

  function PerformStatus(s: State, a: Answers): (State, Option<Call>) {
    if a.mvxPerformed.None? || a.mvxPerformed.value then (Restart(s), None)
    else if !a.isLeader then (s, None)
    else if s.batch.None? then (Restart(s), None)
    else (if a.performSent then s else Restart(s), Some(PerformAction(s.actionId)))
  }

  function Execute(cfg: Config, s: State, a: Answers): (State, Option<Call>) {
    match s.step
    case GettingPendingBatch => (GetPending(s, a), None)
    case SigningTransfer => SignTransfer(cfg, s)
    case WaitingForQuorumOnTransfer => (WaitForQuorumOnTransfer(cfg, s, a), None)
    case PerformingTransfer => PerformTransfer(s, a)
    case WaitingTransferConfirmation => (s.(step := PerformingTransfer), None)
    case ResolvingSetStatus => (ResolveSetStatus(s, a), Some(ClearSignatures))
    case ProposingSetStatus => Propose(cfg, s, a)
    case SigningSetStatus => SignStatus(s, a)
    case WaitingForQuorumOnSetStatus => (WaitForQuorumOnSetStatus(cfg, s, a), None)
    case PerformingSetStatus => PerformStatus(s, a)
  }

  // --------------------------------------------------------- implementation

  function StepIndex(s: StepId): (i: nat)
    ensures i < |ALL_STEPS| && ALL_STEPS[i] == s
  {
    match s
    case GettingPendingBatch => 0
    case SigningTransfer => 1
    case WaitingForQuorumOnTransfer => 2
    case PerformingTransfer => 3
    case WaitingTransferConfirmation => 4
    case ResolvingSetStatus => 5
    case ProposingSetStatus => 6
    case SigningSetStatus => 7
    case WaitingForQuorumOnSetStatus => 8
    case PerformingSetStatus => 9
  }

  /** Two different identifiers differ in their length or in one of two letters. */
  lemma IdentifiersDiffer(s: StepId, t: StepId)
    requires s != t
    ensures Identifier(s) != Identifier(t)
  {
    assert Identifier(PerformingTransfer)[0] == 'p' && Identifier(PerformingTransfer)[8] == 't';
    assert Identifier(ResolvingSetStatus)[0] == 'r';
    assert Identifier(ProposingSetStatus)[0] == 'p' && Identifier(ProposingSetStatus)[1] == 'r';
    assert Identifier(PerformingSetStatus)[0] == 'p' && Identifier(PerformingSetStatus)[1] == 'e';
  }

  lemma StepsDiffer(i: nat, k: nat)
    requires i < k < |ALL_STEPS|
    ensures ALL_STEPS[i] != ALL_STEPS[k]
  {
  }

  /** The first `k` steps under their identifiers. */
  function FirstSteps(k: nat): map<string, StepId>
    requires k <= |ALL_STEPS|
  {
    if k == 0 then map[] else FirstSteps(k - 1)[Identifier(ALL_STEPS[k - 1]) := ALL_STEPS[k - 1]]
  }

  lemma {:induction false} NotRegisteredYet(k: nat, j: nat)
    requires k <= j < |ALL_STEPS|
    ensures Identifier(ALL_STEPS[j]) !in FirstSteps(k)
  {
    if k > 0 {
      NotRegisteredYet(k - 1, j);
      StepsDiffer(k - 1, j);
      IdentifiersDiffer(ALL_STEPS[k - 1], ALL_STEPS[j]);
    }
  }

  lemma {:induction false} StaysRegistered(k: nat, i: nat)
    requires i < k <= |ALL_STEPS|
    ensures Identifier(ALL_STEPS[i]) in FirstSteps(k) && FirstSteps(k)[Identifier(ALL_STEPS[i])] == ALL_STEPS[i]
  {
    if i < k - 1 {
      StaysRegistered(k - 1, i);
      StepsDiffer(i, k - 1);
      IdentifiersDiffer(ALL_STEPS[i], ALL_STEPS[k - 1]);
    }
  }

  /** createMachineStates: no identifier is registered twice and every step can be found under its own. */
  method CreateMachineStates() returns (r: Option<map<string, StepId>>)
    ensures r.Some? && forall s :: Identifier(s) in r.value && r.value[Identifier(s)] == s
  {
    var machineStates: map<string, StepId> := map[];
    for k := 0 to |ALL_STEPS|
      invariant machineStates == FirstSteps(k)
    {
      var id := Identifier(ALL_STEPS[k]);
      NotRegisteredYet(k, k);
      if id in machineStates {
        return None;
      }
      machineStates := machineStates[id := ALL_STEPS[k]];
    }
    forall s ensures Identifier(s) in machineStates && machineStates[Identifier(s)] == s {
      StaysRegistered(|ALL_STEPS|, StepIndex(s));
    }
    r := Some(machineStates);
  }

  /** The executor's fields and the machine's current step. */
  class Relayer {
    const cfg: Config
    const steps: map<string, StepId>
    var currentStep: Option<StepId>
    var batch: Option<Batch>
    var actionId: u64
    var msgHash: Bytes
    var ethRetries: nat
    var mvxRetries: nat
    var proposedRetries: nat

    /** All steps are registered and the machine has a current one. */
    ghost predicate Valid()
      reads this
    {
      && currentStep.Some?
      && forall s :: Identifier(s) in steps && steps[Identifier(s)] == s
    }

    ghost function View(): State
      reads this
      requires currentStep.Some?
    {
      State(currentStep.value, batch, actionId, msgHash, ethRetries, mvxRetries, proposedRetries)
    }

    constructor (cfg: Config, registered: map<string, StepId>)
      requires forall s :: Identifier(s) in registered && registered[Identifier(s)] == s
      ensures Valid() && View() == Initial() && this.cfg == cfg
    {
      this.cfg, steps := cfg, registered;
      currentStep, batch, actionId, msgHash := Some(GettingPendingBatch), None, 0, [];
      ethRetries, mvxRetries, proposedRetries := 0, 0, 0;
    }

    /** executeStep: runs the current step and looks its successor up; a miss would leave the machine without one. */
    method ExecuteStep(a: Answers) returns (call: Option<Call>)
      requires Valid()
      modifies this
      ensures Valid()
      ensures (View(), call) == Execute(cfg, old(View()), a)
    {
      call := None;
      var next: StepId;
      match currentStep.value {
        case GettingPendingBatch => next := ExecuteGetPending(a);
        case SigningTransfer => next, call := ExecuteSignTransfer();
        case WaitingForQuorumOnTransfer => next := ExecuteWaitForQuorumOnTransfer(a);
        case PerformingTransfer => next, call := ExecutePerformTransfer(a);
        case WaitingTransferConfirmation => next := PerformingTransfer;
        case ResolvingSetStatus => next, call := ExecuteResolveSetStatus(a);
        case ProposingSetStatus => next, call := ExecuteProposeSetStatus(a);
        case SigningSetStatus => next, call := ExecuteSignSetStatus(a);
        case WaitingForQuorumOnSetStatus => next := ExecuteWaitForQuorumOnSetStatus(a);
        case PerformingSetStatus => next, call := ExecutePerformSetStatus(a);
      }
      var identifier := Identifier(next);
      currentStep := if identifier in steps then Some(steps[identifier]) else None;
    }

    method ExecuteGetPending(a: Answers) returns (next: StepId)
      requires currentStep == Some(GettingPendingBatch)
      modifies this`batch, this`ethRetries, this`mvxRetries, this`proposedRetries
      ensures View().(step := next) == GetPending(old(View()), a)
    {
      ethRetries, mvxRetries, proposedRetries := 0, 0, 0;
      if a.pending.None? {
        return GettingPendingBatch;
      }
      batch := a.pending;
      if a.ethPerformed.None? {
        return GettingPendingBatch;
      }
      if a.ethPerformed.value {
        return ResolvingSetStatus;
      }
      var argLists := ExtractListMvxToEth(batch.value.deposits);
      if !a.tokensAvailable(argLists) {
        return GettingPendingBatch;
      }
      return SigningTransfer;
    }

    method ExecuteSignTransfer() returns (next: StepId, call: Option<Call>)
      requires currentStep == Some(SigningTransfer)
      modifies this`msgHash
      ensures (View().(step := next), call) == SignTransfer(cfg, old(View()))
    {
      if batch.None? {
        return GettingPendingBatch, None;
      }
      var lists := ExtractListMvxToEth(batch.value.deposits);
      var hash := cfg.hash(lists, batch.value.id);
      if hash.None? {
        return GettingPendingBatch, None;
      }
      msgHash := hash.value;
      return WaitingForQuorumOnTransfer, Some(BroadcastSignature(msgHash));
    }

    method ExecuteWaitForQuorumOnTransfer(a: Answers) returns (next: StepId)
      requires currentStep == Some(WaitingForQuorumOnTransfer)
      modifies this`ethRetries
      ensures View().(step := next) == WaitForQuorumOnTransfer(cfg, old(View()), a)
    {
      if ethRetries >= cfg.maxEth {
        return GettingPendingBatch;
      }
      ethRetries := ethRetries + 1;
      if a.ethQuorumReached.None? {
        return GettingPendingBatch;
      }
      return if a.ethQuorumReached.value then PerformingTransfer else WaitingForQuorumOnTransfer;
    }

    method ExecutePerformTransfer(a: Answers) returns (next: StepId, call: Option<Call>)
      requires currentStep == Some(PerformingTransfer)
      ensures (View().(step := next), call) == PerformTransfer(View(), a)
    {
      if batch.None? || a.ethPerformed.None? {
        return GettingPendingBatch, None;
      }
      if a.ethPerformed.value {
        return ResolvingSetStatus, None;
      }
      if !a.isLeader {
        return WaitingTransferConfirmation, None;
      }
      if a.quorumSize.None? {
        return GettingPendingBatch, None;
      }
      var lists := ExtractListMvxToEth(batch.value.deposits);
      call := Some(ExecuteTransfer(msgHash, lists, batch.value.id, a.quorumSize.value));
      next := if a.transferSent then WaitingTransferConfirmation else GettingPendingBatch;
    }

    method ExecuteResolveSetStatus(a: Answers) returns (next: StepId, call: Option<Call>)
      requires currentStep == Some(ResolvingSetStatus)
      modifies this`batch
      ensures View().(step := next) == ResolveSetStatus(old(View()), a) && call == Some(ClearSignatures)
    {
      call := Some(ClearSignatures);
      if batch.None? || a.pending.None? || |a.statuses| == 0 {
        return GettingPendingBatch, call;
      }
      var stored := new TransferBatch(a.statuses);
      stored.ResolveNewDeposits(|a.pending.value.statuses|);
      batch := Some(batch.value.(statuses := stored.statuses));
      next := ProposingSetStatus;
    }

    method ExecuteProposeSetStatus(a: Answers) returns (next: StepId, call: Option<Call>)
      requires currentStep == Some(ProposingSetStatus)
      modifies this`proposedRetries
      ensures (View().(step := next), call) == Propose(cfg, old(View()), a)
    {
      if batch.None? || proposedRetries >= cfg.maxProposed {
        return GettingPendingBatch, None;
      }
      proposedRetries := proposedRetries + 1;
      if a.wasProposed.None? {
        return GettingPendingBatch, None;
      }
      if a.wasProposed.value {
        return SigningSetStatus, None;
      }
      if !a.isLeader {
        return ProposingSetStatus, None;
      }
      call := Some(ProposeSetStatus(batch.value.id, batch.value.statuses));
      next := if a.proposeSent then SigningSetStatus else GettingPendingBatch;
    }

    method ExecuteSignSetStatus(a: Answers) returns (next: StepId, call: Option<Call>)
      requires currentStep == Some(SigningSetStatus)
      modifies this`actionId
      ensures (View().(step := next), call) == SignStatus(old(View()), a)
    {
      if batch.None? || a.actionId.None? {
        return GettingPendingBatch, None;
      }
      actionId := a.actionId.value;
      if actionId == INVALID_ACTION_ID || a.wasSigned.None? {
        return GettingPendingBatch, None;
      }
      if a.wasSigned.value {
        return WaitingForQuorumOnSetStatus, None;
      }
      return if a.signSent then WaitingForQuorumOnSetStatus else GettingPendingBatch, Some(SignAction(actionId));
    }

    method ExecuteWaitForQuorumOnSetStatus(a: Answers) returns (next: StepId)
      requires currentStep == Some(WaitingForQuorumOnSetStatus)
      modifies this`mvxRetries
      ensures View().(step := next) == WaitForQuorumOnSetStatus(cfg, old(View()), a)
    {
      if mvxRetries >= cfg.maxMvx {
        return GettingPendingBatch;
      }
      mvxRetries := mvxRetries + 1;
      if a.mvxQuorumReached.None? {
        return GettingPendingBatch;
      }
      return if a.mvxQuorumReached.value then PerformingSetStatus else WaitingForQuorumOnSetStatus;
    }

    method ExecutePerformSetStatus(a: Answers) returns (next: StepId, call: Option<Call>)
      requires currentStep == Some(PerformingSetStatus)
      ensures (View().(step := next), call) == PerformStatus(View(), a)
    {
      if a.mvxPerformed.None? || a.mvxPerformed.value {
        return GettingPendingBatch, None;
      }
      if !a.isLeader {
        return PerformingSetStatus, None;
      }
      if batch.None? {
        return GettingPendingBatch, None;
      }
      return if a.performSent then PerformingSetStatus else GettingPendingBatch, Some(PerformAction(actionId));
    }
  }

  function Initial(): State {
    State(GettingPendingBatch, None, 0, [], 0, 0, 0)
  }
}
