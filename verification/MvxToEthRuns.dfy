/** What holds over every run of the MultiversX -> Ethereum machine. */
module MvxToEthRuns {
  import opened Common
  import opened Batches
  import opened BatchLists
  import BV = BalanceValidator
  import opened Cumulation
  import opened MvxToEth
  import opened TokenCheck

  /** `states` is the run of the machine on the answers in `run`. */
  ghost predicate IsRun(cfg: Config, run: seq<Answers>, states: seq<State>) {
    && |states| == |run| + 1
    && states[0] == Initial()
    && forall i :: 0 <= i < |run| ==> states[i + 1] == Execute(cfg, states[i], run[i]).0
  }

  /** The batch is on its way to Ethereum, */
  predicate Transferring(s: StepId) {
    s in {SigningTransfer, WaitingForQuorumOnTransfer, PerformingTransfer, WaitingTransferConfirmation}
  }

  /** and its hash is signed; */
  predicate Hashed(s: StepId) {
    s in {WaitingForQuorumOnTransfer, PerformingTransfer, WaitingTransferConfirmation}
  }

  /** its outcome is known, */
  predicate Settled(s: StepId) {
    s in {ProposingSetStatus, SigningSetStatus, WaitingForQuorumOnSetStatus, PerformingSetStatus}
  }

  /** and has an action. */
  predicate Identified(s: StepId) {
    s in {WaitingForQuorumOnSetStatus, PerformingSetStatus}
  }

  // --------------------------------------------------------------- one step

  /** The first step let `b` into the protocol: Ethereum has not executed it and the tokens are there. */
  predicate Admitted(b: Batch, a: Answers) {
    a.pending == Some(b) && a.ethPerformed == Some(false) && a.tokensAvailable(ListsOf(b.deposits, FromMultiversX))
  }

  /** When the token answers are those of the executor's check, the Ethereum safe can pay an admitted batch, deposit by
      deposit. */
  lemma AdmittedIsPaid(b: Batch, a: Answers, ch: BV.Clients, end: u64, k: nat)
    requires BV.WalksEnd(ch, end) && (forall arg :: a.tokensAvailable(arg) ==> Passes(ch, arg, end))
    requires Admitted(b, a) && k <= |b.deposits|
    ensures var arg := ListsOf(b.deposits, FromMultiversX);
            && Passes(ch, arg, end)
            && Pay(SafeOf(ch.onEth, arg.ethTokens), MintedOf(ch.onEth, arg.ethTokens),
                   arg.ethTokens[..k], arg.amounts[..k]).Some?
  {
    PassedIsPaidOnEthereum(ch, ListsOf(b.deposits, FromMultiversX), end, k);
  }

  ghost predicate KeepsBatch(s: State, a: Answers, s': State) {
    && (Transferring(s'.step) ==>
          if s.step == GettingPendingBatch then s'.batch.Some? && Admitted(s'.batch.value, a)
          else Transferring(s.step) && s'.batch == s.batch)
    && (s'.step == ResolvingSetStatus ==>
          && s'.batch.Some? && a.ethPerformed == Some(true)
          && (if s.step == GettingPendingBatch then s'.batch == a.pending
              else s.step == PerformingTransfer && s'.batch == s.batch))
    && (Settled(s'.step) ==>
          if s.step == ResolvingSetStatus
          then s.batch.Some? && a.pending.Some? && a.statuses != [] &&
            s'.batch == Some(s.batch.value.(statuses := Resolved(a.statuses, |a.pending.value.statuses|)))
          else Settled(s.step) && s'.batch == s.batch)
  }

  ghost predicate KeepsHash(cfg: Config, s: State, s': State) {
    Hashed(s'.step) ==>
      if s.step == SigningTransfer
      then s.batch.Some? && s'.batch == s.batch && HashOf(cfg, s.batch.value) == Some(s'.msgHash)
      else Hashed(s.step) && s'.msgHash == s.msgHash
  }

  ghost predicate KeepsAction(s: State, a: Answers, s': State) {
    Identified(s'.step) ==>
      if s.step == SigningSetStatus
      then a.actionId == Some(s'.actionId) && s'.actionId != INVALID_ACTION_ID
      else Identified(s.step) && s'.actionId == s.actionId
  }

  lemma ExecuteKeepsBatch(cfg: Config, s: State, a: Answers)
    ensures KeepsBatch(s, a, Execute(cfg, s, a).0)
  {
  }

  lemma ExecuteKeepsHash(cfg: Config, s: State, a: Answers)
    ensures KeepsHash(cfg, s, Execute(cfg, s, a).0)
  {
  }

  lemma ExecuteKeepsAction(cfg: Config, s: State, a: Answers)
    ensures KeepsAction(s, a, Execute(cfg, s, a).0)
  {
  }

  // ------------------------------------------------------------ whole runs

  /** `j` is the last execution of the first step before state `n`, and it admitted the batch stored there. */
  ghost predicate AdmittedAt(run: seq<Answers>, states: seq<State>, n: nat, j: nat)
    requires n < |states| == |run| + 1
  {
    && j < n && states[j].step == GettingPendingBatch
    && (forall i :: j < i <= n ==> Transferring(states[i].step) && states[i].batch == states[n].batch)
    && states[n].batch.Some? && Admitted(states[n].batch.value, run[j])
  }

  lemma {:induction false} TransfersAdmittedBatch(cfg: Config, run: seq<Answers>, states: seq<State>, n: nat)
    returns (j: nat)
    requires IsRun(cfg, run, states) && n <= |run| && Transferring(states[n].step)
    ensures AdmittedAt(run, states, n, j)
  {
    ExecuteKeepsBatch(cfg, states[n - 1], run[n - 1]);
    if states[n - 1].step == GettingPendingBatch {
      j := n - 1;
    } else {
      j := TransfersAdmittedBatch(cfg, run, states, n - 1);
    }
  }

  /** At `k` the relayer signed the hash of the batch stored at `n`, and that is the hash stored there. */
  ghost predicate SignedAt(cfg: Config, states: seq<State>, n: nat, k: nat)
    requires n < |states|
  {
    && k < n && states[k].step == SigningTransfer
    && (forall i :: k < i <= n ==> Hashed(states[i].step))
    && states[n].batch.Some? && states[k].batch == states[n].batch
    && HashOf(cfg, states[n].batch.value) == Some(states[n].msgHash)
  }

  /** While signatures are gathered and the transfer is executed the stored hash is the one of the stored batch. */
  lemma {:induction false} GathersForOwnHash(cfg: Config, run: seq<Answers>, states: seq<State>, n: nat)
    returns (k: nat)
    requires IsRun(cfg, run, states) && n <= |run| && Hashed(states[n].step)
    ensures SignedAt(cfg, states, n, k)
  {
    ExecuteKeepsHash(cfg, states[n - 1], run[n - 1]);
    ExecuteKeepsBatch(cfg, states[n - 1], run[n - 1]);
    if states[n - 1].step == SigningTransfer {
      k := n - 1;
    } else {
      k := GathersForOwnHash(cfg, run, states, n - 1);
    }
  }

  /** At `j` Ethereum was found to have executed the batch, at `k` its statuses were fetched, brought in line with the
      deposits MultiversX then had, and stored with it. */
  ghost predicate SettledAt(run: seq<Answers>, states: seq<State>, n: nat, j: nat, k: nat)
    requires n < |states| == |run| + 1
  {
    && j < k < n && states[j].step in {GettingPendingBatch, PerformingTransfer} && k == j + 1
    && states[k].step == ResolvingSetStatus && states[k].batch.Some? && states[n].batch.Some?
    && run[j].ethPerformed == Some(true)
    && run[k].pending.Some? && run[k].statuses != []
    && states[n].batch.value ==
       states[k].batch.value.(statuses := Resolved(run[k].statuses, |run[k].pending.value.statuses|))
    && forall i :: k < i <= n ==> Settled(states[i].step)
  }

  /** A status update is worked on only for a batch that Ethereum reported as executed, with the statuses it reported as
      resolving leaves them; ReportedStatusesSurviveIff says when that is unchanged. */
  lemma {:induction false} SettlesExecutedBatch(cfg: Config, run: seq<Answers>, states: seq<State>, n: nat)
    returns (j: nat, k: nat)
    requires IsRun(cfg, run, states) && n <= |run| && Settled(states[n].step)
    ensures SettledAt(run, states, n, j, k)
  {
    ExecuteKeepsBatch(cfg, states[n - 1], run[n - 1]);
    if states[n - 1].step == ResolvingSetStatus {
      ExecuteKeepsBatch(cfg, states[n - 2], run[n - 2]);
      j, k := n - 2, n - 1;
    } else {
      j, k := SettlesExecutedBatch(cfg, run, states, n - 1);
    }
  }

  /** The action ID stored at `n` was answered at `k` for the batch and statuses stored at `n`. */
  ghost predicate IdentifiedAt(run: seq<Answers>, states: seq<State>, n: nat, k: nat)
    requires n < |states| == |run| + 1
  {
    && k < n && states[k].step == SigningSetStatus
    && (forall i :: k < i <= n ==> Identified(states[i].step))
    && states[k].batch == states[n].batch
    && run[k].actionId == Some(states[n].actionId) && states[n].actionId != INVALID_ACTION_ID
  }

  lemma {:induction false} PerformsIdentifiedAction(cfg: Config, run: seq<Answers>, states: seq<State>, n: nat)
    returns (k: nat)
    requires IsRun(cfg, run, states) && n <= |run| && Identified(states[n].step)
    ensures IdentifiedAt(run, states, n, k)
  {
    ExecuteKeepsAction(cfg, states[n - 1], run[n - 1]);
    ExecuteKeepsBatch(cfg, states[n - 1], run[n - 1]);
    if states[n - 1].step == SigningSetStatus {
      k := n - 1;
    } else {
      k := PerformsIdentifiedAction(cfg, run, states, n - 1);
    }
  }

  // -------------------------------------------------------- what is sent

  /** A transfer is sent only by the leader, for an admitted batch that Ethereum has just reported as not executed, with
      exactly the lists whose hash the signatures are taken for and the relayer has signed itself. */
  lemma TransferMatchesItsHash(cfg: Config, run: seq<Answers>, states: seq<State>, n: nat) returns (j: nat, k: nat)
    requires IsRun(cfg, run, states) && n < |run|
    requires Execute(cfg, states[n], run[n]).1.Some? && Execute(cfg, states[n], run[n]).1.value.ExecuteTransfer?
    ensures AdmittedAt(run, states, n, j) && SignedAt(cfg, states, n, k)
    ensures var call := Execute(cfg, states[n], run[n]).1.value;
            && cfg.hash(call.lists, call.batchId) == Some(call.hash)
            && call.lists == ListsOf(states[n].batch.value.deposits, FromMultiversX)
            && call.batchId == states[n].batch.value.id
    ensures run[n].isLeader && run[n].ethPerformed == Some(false)
  {
    j := TransfersAdmittedBatch(cfg, run, states, n);
    k := GathersForOwnHash(cfg, run, states, n);
  }

  /** A status update is proposed or signed only for a batch that Ethereum reported as executed, under the statuses
      stored after resolving, and a signature only under the action ID answered for them. */
  lemma StatusUpdatesAreJustified(cfg: Config, run: seq<Answers>, states: seq<State>, n: nat) returns (j: nat, k: nat)
    requires IsRun(cfg, run, states) && n < |run|
    requires var call := Execute(cfg, states[n], run[n]).1;
             call.Some? && (call.value.ProposeSetStatus? || call.value.SignAction? || call.value.PerformAction?)
    ensures SettledAt(run, states, n, j, k)
    ensures match Execute(cfg, states[n], run[n]).1.value
            case ProposeSetStatus(id, statuses) =>
              id == states[n].batch.value.id && statuses == states[n].batch.value.statuses && run[n].isLeader
            case SignAction(id) =>
              run[n].actionId == Some(id) && id != INVALID_ACTION_ID && run[n].wasSigned == Some(false)
            case PerformAction(id) =>
              id == states[n].actionId && run[n].isLeader && exists i: nat :: IdentifiedAt(run, states, n, i)
            case _ => false
  {
    j, k := SettlesExecutedBatch(cfg, run, states, n);
    if Execute(cfg, states[n], run[n]).1.value.PerformAction? {
      var i := PerformsIdentifiedAction(cfg, run, states, n);
    }
  }

  /** There are as many statuses as deposits of the batch they are proposed for if and only if the larger of two
      numbers is that of its deposits: the statuses Ethereum reported, and those of the batch fetched anew, which need
      not be the stored one. When it has as many as the stored batch has deposits, what counts is that Ethereum
      reported no more. */
  lemma ProposedStatusesFitIff(cfg: Config, run: seq<Answers>, states: seq<State>, n: nat, j: nat, k: nat)
    requires IsRun(cfg, run, states) && n <= |run| && SettledAt(run, states, n, j, k)
    ensures var b, reported, refetched := states[n].batch.value, |run[k].statuses|, |run[k].pending.value.statuses|;
            && (|b.statuses| == |b.deposits| <==>
                (if reported >= refetched then reported else refetched) == |b.deposits|)
            && (refetched == |b.deposits| ==> (|b.statuses| == |b.deposits| <==> reported <= |b.deposits|))
            && b.statuses != []
  {
    ResolvedMatchesDeposits(run[k].statuses, |run[k].pending.value.statuses|);
  }

  /** The proposal says of every deposit what Ethereum reported if and only if whatever it reported beyond the number
      of the refetched batch was a rejection. */
  lemma ReportedStatusesSurviveIff(cfg: Config, run: seq<Answers>, states: seq<State>, n: nat, j: nat, k: nat)
    requires IsRun(cfg, run, states) && n <= |run| && SettledAt(run, states, n, j, k)
    ensures run[k].statuses <= states[n].batch.value.statuses <==>
            forall i :: |run[k].pending.value.statuses| <= i < |run[k].statuses| ==> run[k].statuses[i] == REJECTED
  {
    ResolvedKeepsGivenIff(run[k].statuses, |run[k].pending.value.statuses|);
  }

  function NoAnswer(): Answers {
    Answers(None, None, (arg: ArgLists) => false, None, true, None, false, [], Some(false), true, None, None, false,
            None, None, false)
  }

  function Deposits(n: nat): seq<Deposit> {
    seq(n, _ => Deposit(1, [], [], [], [], 0, []))
  }

  /** Batch 4 was executed on Ethereum, with `reported` statuses, and settled by others in the meantime; batch 5 is
      pending when the statuses are resolved. */
  lemma SettledInTheMeantime(cfg: Config, stored: nat, refetched: nat, reported: Bytes)
    returns (run: seq<Answers>, states: seq<State>)
    requires cfg.maxProposed >= 1 && reported != []
    ensures IsRun(cfg, run, states) && |run| == 3 && run[1].statuses == reported
    ensures Execute(cfg, states[2], run[2]).1 == Some(ProposeSetStatus(4, Resolved(reported, refetched)))
    ensures states[2].batch.Some? && |states[2].batch.value.deposits| == stored
  {
    var fourth := Batch(4, Deposits(stored), seq(stored, _ => 0));
    var fifth := Batch(5, Deposits(refetched), seq(refetched, _ => 0));
    run := [NoAnswer().(pending := Some(fourth), ethPerformed := Some(true)),
            NoAnswer().(pending := Some(fifth), statuses := reported), NoAnswer()];
    var s1 := Execute(cfg, Initial(), run[0]).0;
    var s2 := Execute(cfg, s1, run[1]).0;
    states := [Initial(), s1, s2, Execute(cfg, s2, run[2]).0];
  }

  /** A newer batch with two deposits: two statuses are proposed for one deposit. */
  lemma NewerBatchMisleadsStatuses(cfg: Config) returns (run: seq<Answers>, states: seq<State>)
    requires cfg.maxProposed >= 1
    ensures IsRun(cfg, run, states) && |run| == 3
    ensures Execute(cfg, states[2], run[2]).1 == Some(ProposeSetStatus(4, [EXECUTED, REJECTED]))
    ensures states[2].batch.Some? && |states[2].batch.value.deposits| == 1
  {
    run, states := SettledInTheMeantime(cfg, 1, 2, [EXECUTED]);
    assert Resolved([EXECUTED], 2) == [EXECUTED, REJECTED];
  }

  /** A newer batch with one deposit: the second of two executed deposits is proposed as rejected, though the numbers
      fit. */
  lemma NewerBatchRejectsExecuted(cfg: Config) returns (run: seq<Answers>, states: seq<State>)
    requires cfg.maxProposed >= 1
    ensures IsRun(cfg, run, states) && |run| == 3 && run[1].statuses == [EXECUTED, EXECUTED]
    ensures Execute(cfg, states[2], run[2]).1 == Some(ProposeSetStatus(4, [EXECUTED, REJECTED]))
    ensures states[2].batch.Some? && |states[2].batch.value.deposits| == 2
  {
    run, states := SettledInTheMeantime(cfg, 2, 1, [EXECUTED, EXECUTED]);
    SurplusStatusesStay();
  }

  // ------------------------------------------------------- bounded visits

  /** Every counter is within its maximum, and zero on the way into the step it counts. */
  ghost predicate CountersSound(cfg: Config, s: State) {
    && s.ethRetries <= cfg.maxEth && s.mvxRetries <= cfg.maxMvx && s.proposedRetries <= cfg.maxProposed
    && (s.step == SigningTransfer ==> s.ethRetries == 0)
    && (s.step == ResolvingSetStatus || Transferring(s.step) ==> s.proposedRetries == 0)
    && (s.step in {ResolvingSetStatus, ProposingSetStatus, SigningSetStatus} || Transferring(s.step) ==>
          s.mvxRetries == 0)
  }

  lemma {:induction false} CountersStaySound(cfg: Config, run: seq<Answers>, states: seq<State>, n: nat)
    requires IsRun(cfg, run, states) && n <= |run|
    ensures CountersSound(cfg, states[n])
  {
    if n > 0 {
      CountersStaySound(cfg, run, states, n - 1);
      assert states[n] == Execute(cfg, states[n - 1], run[n - 1]).0;
    }
  }

  /** The steps whose executions are counted, with their counter and maximum. */
  function Counter(s: State, step: StepId): nat {
    match step
    case WaitingForQuorumOnTransfer => s.ethRetries
    case WaitingForQuorumOnSetStatus => s.mvxRetries
    case _ => s.proposedRetries
  }

  function Maximum(cfg: Config, step: StepId): nat {
    match step
    case WaitingForQuorumOnTransfer => cfg.maxEth
    case WaitingForQuorumOnSetStatus => cfg.maxMvx
    case _ => cfg.maxProposed
  }

  predicate Counted(step: StepId) {
    step in {WaitingForQuorumOnTransfer, WaitingForQuorumOnSetStatus, ProposingSetStatus}
  }

  lemma {:induction false} StayingCountsUp(cfg: Config, run: seq<Answers>, states: seq<State>, step: StepId, i: nat,
                                           j: nat)
    requires IsRun(cfg, run, states) && i <= j <= |run| && Counted(step)
    requires forall k :: i <= k <= j ==> states[k].step == step
    ensures Counter(states[j], step) == Counter(states[i], step) + (j - i)
    decreases j
  {
    if i < j {
      StayingCountsUp(cfg, run, states, step, i, j - 1);
      assert states[j] == Execute(cfg, states[j - 1], run[j - 1]).0;
    }
  }

  /** No visit to a counted step lasts longer than its maximum plus one execution. */
  lemma VisitIsBounded(cfg: Config, run: seq<Answers>, states: seq<State>, step: StepId, i: nat, j: nat)
    requires IsRun(cfg, run, states) && i <= j <= |run| + 1 && Counted(step)
    requires forall k :: i <= k < j ==> states[k].step == step
    ensures j - i <= Maximum(cfg, step) + 1
  {
    if i < j {
      StayingCountsUp(cfg, run, states, step, i, j - 1);
      CountersStaySound(cfg, run, states, j - 1);
    }
  }
}
