/** Transfer batches and the argument list under which a batch is proposed, looked up and signed. */
module Batches {
  import opened Common
  import Framing

  /** `data` is the framed call data; it is empty until the metadata is attached. */
  datatype Deposit = Deposit(
    nonce: u64, from: Bytes, to: Bytes, sourceToken: Bytes, destinationToken: Bytes, amount: nat, data: Bytes)

  datatype Batch = Batch(id: u64, deposits: seq<Deposit>, statuses: Bytes)

  const EXECUTED: byte := 3
  const REJECTED: byte := 4

  /** The answer for a batch nobody has proposed. */
  const INVALID_ACTION_ID: u64 := 0

  // -------------------------------------------------- nonces and metadata

  /** Deposit nonces run upwards from `start`, as uint64 values. */
  predicate Consecutive(deposits: seq<Deposit>, start: u64) {
    forall i :: 0 <= i < |deposits| ==> deposits[i].nonce == NonceAfter(start, i)
  }

  /** The nonce `i` places after `start`, as a uint64. */
  function NonceAfter(start: u64, i: nat): u64 {
    if i == 0 then start else Succ(NonceAfter(start, i - 1))
  }

  /** verifyDepositNonces: the loop accepts exactly the batches numbered right after `lastNonce`. */
  method VerifyDepositNonces(deposits: seq<Deposit>, lastNonce: u64) returns (ok: bool)
    ensures ok <==> Consecutive(deposits, Succ(lastNonce))
  {
    var startNonce := Succ(lastNonce);
    for k := 0 to |deposits|
      invariant startNonce == NonceAfter(Succ(lastNonce), k)
      invariant Consecutive(deposits[..k], Succ(lastNonce))
    {
      if deposits[k].nonce != startNonce {
        return false;
      }
      startNonce := Succ(startNonce);
    }
    assert deposits[..|deposits|] == deposits;
    return true;
  }

  /** The batch after addBatchSCMetadata. */
  function WithMetadata(b: Batch, events: seq<Framing.ScDepositEvent>): Batch {
    b.(deposits := seq(|b.deposits|, i requires 0 <= i < |b.deposits| =>
      b.deposits[i].(data := Framing.Frame(Framing.CallDataFor(b.deposits[i].nonce, events)))))
  }

  /** The deposits as the objects that Framing.AddBatchScMetadata works on, and back. */
  method AttachMetadata(b: Batch, events: seq<Framing.ScDepositEvent>) returns (r: Batch)
    ensures r == WithMetadata(b, events)
  {
    var transfers: seq<Framing.DepositTransfer> := [];
    for k := 0 to |b.deposits|
      invariant |transfers| == k
      invariant forall i :: 0 <= i < k ==> fresh(transfers[i]) && transfers[i].nonce == b.deposits[i].nonce
    {
      var transfer := new Framing.DepositTransfer(b.deposits[k].nonce);
      transfers := transfers + [transfer];
    }
    Framing.AddBatchScMetadata(transfers, events);
    assert forall i :: 0 <= i < |transfers| ==> transfers[i] in transfers;
    r := b.(deposits := []);
    for k := 0 to |transfers|
      invariant r == b.(deposits := WithMetadata(b, events).deposits[..k])
    {
      r := r.(deposits := r.deposits + [b.deposits[k].(data := transfers[k].data)]);
    }
  }

  // ----------------------------------------------------------- statuses

  /** Statuses after ResolveNewDeposits: never shortened, everything past either end is rejected. */
  function Resolved(statuses: Bytes, newNumDeposits: nat): Bytes {
    seq(if |statuses| >= newNumDeposits then |statuses| else newNumDeposits,
      i requires i >= 0 => if i < |statuses| && i < newNumDeposits then statuses[i] else REJECTED)
  }

  class TransferBatch {
    var statuses: Bytes

    constructor (statuses: Bytes)
      ensures this.statuses == statuses
    {
      this.statuses := statuses;
    }

    method ResolveNewDeposits(newNumDeposits: nat)
      modifies this
      ensures statuses == Resolved(old(statuses), newNumDeposits)
    {
      var oldLen := |statuses|;
      if newNumDeposits == oldLen {
        return;
      }
      var i := newNumDeposits;
      while i < oldLen
        invariant i >= newNumDeposits && |statuses| == oldLen
        invariant newNumDeposits <= oldLen ==> i <= oldLen
        invariant forall j :: 0 <= j < oldLen ==>
                    statuses[j] == if newNumDeposits <= j < i then REJECTED else old(statuses)[j]
      {
        statuses := statuses[i := REJECTED];
        i := i + 1;
      }
      while newNumDeposits > |statuses|
        invariant |statuses| >= oldLen
        invariant newNumDeposits >= oldLen ==> |statuses| <= newNumDeposits
        invariant newNumDeposits <= oldLen ==> |statuses| == oldLen
        invariant forall j :: 0 <= j < |statuses| ==>
                    statuses[j] == if j < oldLen && j < newNumDeposits then old(statuses)[j] else REJECTED
      {
        statuses := statuses + [REJECTED];
      }
    }
  }

  /** The statuses match the new number of deposits exactly when there were not too many to begin with. */
  lemma ResolvedMatchesDeposits(statuses: Bytes, newNumDeposits: nat)
    ensures |Resolved(statuses, newNumDeposits)| == newNumDeposits <==> |statuses| <= newNumDeposits
    ensures forall i :: 0 <= i < |statuses| && i < newNumDeposits ==>
              Resolved(statuses, newNumDeposits)[i] == statuses[i]
    ensures Resolved(Resolved(statuses, newNumDeposits), newNumDeposits) == Resolved(statuses, newNumDeposits)
  {
  }

  /** The given statuses are still there, in front, if and only if those beyond the new number were rejections anyway.
      */
  lemma ResolvedKeepsGivenIff(statuses: Bytes, newNumDeposits: nat)
    ensures statuses <= Resolved(statuses, newNumDeposits) <==>
            forall i :: newNumDeposits <= i < |statuses| ==> statuses[i] == REJECTED
  {
    var resolved := Resolved(statuses, newNumDeposits);
    assert forall i :: 0 <= i < |statuses| ==>
             resolved[i] == if i < newNumDeposits then statuses[i] else REJECTED;
    if forall i :: newNumDeposits <= i < |statuses| ==> statuses[i] == REJECTED {
      assert resolved[..|statuses|] == statuses;
    }
  }

  /** Two statuses for one deposit stay two, the second one rejected. */
  lemma SurplusStatusesStay()
    ensures Resolved([EXECUTED, EXECUTED], 1) == [EXECUTED, REJECTED]
  {
  }

  // ------------------------------------------------ proposal arguments

  datatype Arg = ArgBytes(bytes: Bytes) | ArgBigInt(value: nat) | ArgInt64(int64: int)

  /** The part of a batch that reaches the contract. */
  datatype WireDeposit = WireDeposit(from: Bytes, to: Bytes, token: Bytes, amount: nat, nonce: u64, data: Bytes)
  datatype WireBatch = WireBatch(id: u64, deposits: seq<WireDeposit>)

  /** `int64(x)` of a uint64 and back. */
  function ToInt64(x: u64): int {
    if x < U64 / 2 then x else x - U64
  }

  function FromInt64(i: int): Option<u64> {
    if 0 <= i < U64 / 2 then Some(i) else if -(U64 / 2) <= i < 0 then Some(i + U64) else None
  }

  function WireDepositOf(d: Deposit): WireDeposit {
    WireDeposit(d.from, d.to, d.destinationToken, d.amount, d.nonce, d.data)
  }

  function WireOf(b: Batch): WireBatch {
    WireBatch(b.id, seq(|b.deposits|, i requires 0 <= i < |b.deposits| => WireDepositOf(b.deposits[i])))
  }

  function DepositArgs(d: WireDeposit): seq<Arg> {
    [ArgBytes(d.from), ArgBytes(d.to), ArgBytes(d.token), ArgBigInt(d.amount), ArgInt64(ToInt64(d.nonce)),
     ArgBytes(d.data)]
  }

  function DepositsArgs(ds: seq<WireDeposit>): seq<Arg> {
    if ds == [] then [] else DepositsArgs(ds[..|ds| - 1]) + DepositArgs(ds[|ds| - 1])
  }

  function ProposalArgs(w: WireBatch): seq<Arg> {
    [ArgInt64(ToInt64(w.id))] + DepositsArgs(w.deposits)
  }

  /** The argument list sent by ProposeTransfer. */
  method ProposeTransferArgs(b: Batch) returns (args: seq<Arg>)
    ensures args == ProposalArgs(WireOf(b))
  {
    args := [ArgInt64(ToInt64(b.id))];
    ghost var wire := WireOf(b).deposits;
    for k := 0 to |b.deposits|
      invariant args == [ArgInt64(ToInt64(b.id))] + DepositsArgs(wire[..k])
    {
      var dt := b.deposits[k];
      args := args + [ArgBytes(dt.from)] + [ArgBytes(dt.to)] + [ArgBytes(dt.destinationToken)]
        + [ArgBigInt(dt.amount)] + [ArgInt64(ToInt64(dt.nonce))] + [ArgBytes(dt.data)];
      assert wire[..k + 1][..k] == wire[..k];
    }
    assert wire[..|b.deposits|] == wire;
  }

  /** addBatchInfo, used by WasProposedTransfer and by GetActionIDForProposeTransfer after the batch ID. */
  method QueryArgs(b: Batch) returns (args: seq<Arg>)
    ensures args == ProposalArgs(WireOf(b))
  {
    var builder: seq<Arg> := [];
    ghost var wire := WireOf(b).deposits;
    for k := 0 to |b.deposits|
      invariant builder == DepositsArgs(wire[..k])
    {
      builder := builder + DepositArgs(WireDepositOf(b.deposits[k]));
      assert wire[..k + 1][..k] == wire[..k];
    }
    assert wire[..|b.deposits|] == wire;
    args := [ArgInt64(ToInt64(b.id))] + builder;
  }

  /** Reading an argument list back, as the contract does. */
  function ReadDeposit(a: seq<Arg>): Option<WireDeposit>
    requires |a| == 6
  {
    if a[0].ArgBytes? && a[1].ArgBytes? && a[2].ArgBytes? && a[3].ArgBigInt? && a[4].ArgInt64? && a[5].ArgBytes?
       && FromInt64(a[4].int64).Some?
    then
      Some(WireDeposit(a[0].bytes, a[1].bytes, a[2].bytes, a[3].value, FromInt64(a[4].int64).value, a[5].bytes))
    else None
  }

  function ReadDeposits(a: seq<Arg>): Option<seq<WireDeposit>> {
    if a == [] then Some([])
    else if |a| < 6 then None
    else
      match (ReadDeposits(a[..|a| - 6]), ReadDeposit(a[|a| - 6..]))
      case (Some(ds), Some(d)) => Some(ds + [d])
      case _ => None
  }

  function ReadProposal(a: seq<Arg>): Option<WireBatch> {
    if a == [] || !a[0].ArgInt64? || FromInt64(a[0].int64).None? then None
    else
      match ReadDeposits(a[1..])
      case Some(ds) => Some(WireBatch(FromInt64(a[0].int64).value, ds))
      case None => None
  }

  lemma ReadDepositUndoesArgs(d: WireDeposit)
    ensures ReadDeposit(DepositArgs(d)) == Some(d)
  {
  }

  lemma AfterFirst(first: Arg, rest: seq<Arg>)
    ensures ([first] + rest)[1..] == rest
  {
  }

  lemma LastSix(front: seq<Arg>, six: seq<Arg>)
    requires |six| == 6
    ensures (front + six)[..|front|] == front && (front + six)[|front|..] == six
  {
  }

  lemma {:induction false} ReadDepositsUndoesArgs(ds: seq<WireDeposit>)
    ensures ReadDeposits(DepositsArgs(ds)) == Some(ds)
  {
    if ds != [] {
      var init, last := ds[..|ds| - 1], ds[|ds| - 1];
      ReadDepositsUndoesArgs(init);
      LastSix(DepositsArgs(init), DepositArgs(last));
      ReadDepositUndoesArgs(last);
      assert ds == init + [last];
    }
  }

  /** The contract reads back exactly the batch that was flattened. */
  lemma ReadUndoesProposal(w: WireBatch)
    ensures ReadProposal(ProposalArgs(w)) == Some(w)
  {
    ReadDepositsUndoesArgs(w.deposits);
    AfterFirst(ArgInt64(ToInt64(w.id)), DepositsArgs(w.deposits));
  }

  /** Equal argument lists come from equal batches: an action found for a list is an action for that batch. */
  lemma ProposalArgsDetermineBatch(v: WireBatch, w: WireBatch)
    requires ProposalArgs(v) == ProposalArgs(w)
    ensures v == w
  {
    ReadUndoesProposal(v);
    ReadUndoesProposal(w);
  }
}
