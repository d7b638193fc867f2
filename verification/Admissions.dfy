/**
 Behind every signature of an honest relayer stands an execution of the first step in which that relayer itself let the
 batch into the protocol, with all its checks.
 */
module Admissions {
  import opened Common
  import opened Batches
  import opened BatchLists
  import BV = BalanceValidator
  import opened Cumulation
  import opened EthToMvx
  import opened Relayers
  import opened TokenCheck

  /** The batch that the answers of one execution offer. */
  function Offered(a: Answers): Option<Batch> {
    if a.fetched.Some? && a.events.Some? then Some(WithMetadata(a.fetched.value.0, a.events.value)) else None
  }

  /** At this event relayer `r` executes the first step and its checks admit the batch that is `w` on the wire. */
  ghost predicate Admits(s: System, e: Event, r: Id, w: WireBatch) {
    && e.Relays? && e.r == r && r in s.relayers && s.relayers[r].step == GettingPendingBatch
    && Offered(e.a).Some? && Admitted(Offered(e.a).value, e.a) && WireOf(Offered(e.a).value) == w
  }

  /** Who has admitted what. */
  type Record = set<(Id, WireBatch)>

  ghost function NewlyAdmitted(s: System, e: Event): Record {
    if e.Relays? && Offered(e.a).Some? && Admits(s, e, e.r, WireOf(Offered(e.a).value))
    then {(e.r, WireOf(Offered(e.a).value))} else {}
  }

  ghost function AdmittedSoFar(systems: seq<System>, events: seq<Event>, n: nat): Record
    requires n <= |events| < |systems|
  {
    if n == 0 then {} else AdmittedSoFar(systems, events, n - 1) + NewlyAdmitted(systems[n - 1], events[n - 1])
  }

  lemma {:induction false} AdmissionHappened(systems: seq<System>, events: seq<Event>, n: nat, r: Id, w: WireBatch)
    returns (j: nat)
    requires n <= |events| < |systems| && (r, w) in AdmittedSoFar(systems, events, n)
    ensures j < n && Admits(systems[j], events[j], r, w)
  {
    if (r, w) in NewlyAdmitted(systems[n - 1], events[n - 1]) {
      return n - 1;
    }
    j := AdmissionHappened(systems, events, n - 1, r, w);
  }

  // ---------------------------------------------------------- the invariant

  ghost predicate ActionBacked(r: Id, action: Action, rec: Record) {
    action.Transfer? ==> (r, action.batch) in rec
  }

  ghost predicate TxBacked(cfg: Config, c: Contract, r: Id, tx: Tx, rec: Record) {
    r in cfg.honest && tx.BridgeTx? ==>
      match tx.call
      case ProposeTransfer(args) => ReadProposal(args).Some? && (r, ReadProposal(args).value) in rec
      case SignAction(id) => 1 <= id <= |c.entries| && ActionBacked(r, c.entries[id - 1].action, rec)
      case PerformAction(_) => true
  }

  ghost predicate EntriesBacked(cfg: Config, c: Contract, rec: Record) {
    forall k, r :: 0 <= k < |c.entries| && r in c.entries[k].signers && r in cfg.honest ==>
      ActionBacked(r, c.entries[k].action, rec)
  }

  ghost predicate RelayerBacked(r: Id, s: State, rec: Record) {
    s.step != GettingPendingBatch ==> s.batch.Some? && (r, WireOf(s.batch.value)) in rec
  }

  /** Whatever honest relayers work on, have sent or have signed, they have admitted themselves. */
  ghost predicate Backed(cfg: Config, s: System, rec: Record) {
    && (forall r :: r in s.relayers ==> RelayerBacked(r, s.relayers[r], rec))
    && (forall p :: p in s.pool ==> TxBacked(cfg, Latest(s.history), p.0, p.1, rec))
    && EntriesBacked(cfg, Latest(s.history), rec)
  }

  lemma TxStaysBacked(cfg: Config, c: Contract, d: Contract, r: Id, tx: Tx, rec: Record, rec': Record)
    requires TxBacked(cfg, c, r, tx, rec) && Grows(c, d) && rec <= rec'
    ensures TxBacked(cfg, d, r, tx, rec')
  {
  }

  lemma EntriesStayBacked(cfg: Config, c: Contract, rec: Record, rec': Record)
    requires EntriesBacked(cfg, c, rec) && rec <= rec'
    ensures EntriesBacked(cfg, c, rec')
  {
    forall k, r | 0 <= k < |c.entries| && r in c.entries[k].signers && r in cfg.honest
      ensures ActionBacked(r, c.entries[k].action, rec')
    {
      assert ActionBacked(r, c.entries[k].action, rec);
    }
  }

  /** A contract step adds no signer that its transaction is not backed for. */
  lemma ApplyKeepsBacked(cfg: Config, c: Contract, sender: Id, tx: Tx, rec: Record)
    requires EntriesBacked(cfg, c, rec) && TxBacked(cfg, c, sender, tx, rec)
    ensures EntriesBacked(cfg, Apply(cfg, c, sender, tx), rec)
  {
    var d := Apply(cfg, c, sender, tx);
    forall k, r | 0 <= k < |d.entries| && r in d.entries[k].signers && r in cfg.honest
      ensures ActionBacked(r, d.entries[k].action, rec)
    {
      if k < |c.entries| && r in c.entries[k].signers {
        assert ActionBacked(r, c.entries[k].action, rec);
      }
    }
  }

  /** What an honest relayer sends is about the batch it holds. */
  lemma CallIsBacked(cfg: Config, h: seq<Contract>, s: State, a: Answers, r: Id, call: Call, rec: Record)
    requires HistoryGrows(cfg, h) && ReadsActionId(h, s, a) && Justified(s, a, call)
    requires RelayerBacked(r, s, rec)
    ensures TxBacked(cfg, Latest(h), r, BridgeTx(call), rec)
  {
    if call.ProposeTransfer? {
      ReadUndoesProposal(WireOf(s.batch.value));
    } else if call.SignAction? {
      AnsweredActionIsCurrent(cfg, h, s, a, call.actionId);
    }
  }

  lemma RelayerStaysBacked(r: Id, s: System, e: Event, next: State, rec: Record)
    requires e.Relays? && e.r == r && r in s.relayers
    requires RelayerBacked(r, s.relayers[r], rec) && Keeps(s.relayers[r], e.a, next)
    ensures RelayerBacked(r, next, rec + NewlyAdmitted(s, e))
  {
    if next.step != GettingPendingBatch && s.relayers[r].step == GettingPendingBatch {
      assert Offered(e.a) == next.batch;
      assert Admits(s, e, r, WireOf(next.batch.value));
    }
  }

  lemma RelayerKeepsBacked(cfg: Config, s: System, s': System, e: Event, rec: Record)
    requires HistoryGrows(cfg, s.history) && Backed(cfg, s, rec) && e.Relays? && RelayerStep(cfg, s, s', e.r, e.a)
    ensures Backed(cfg, s', rec + NewlyAdmitted(s, e))
  {
    var r, rec' := e.r, rec + NewlyAdmitted(s, e);
    var (next, call) := Execute(cfg.maxRetries, s.relayers[r], e.a);
    ExecuteKeeps(cfg.maxRetries, s.relayers[r], e.a);
    RelayerStaysBacked(r, s, e, next, rec);
    EntriesStayBacked(cfg, Latest(s.history), rec, rec');
    forall p | p in s'.pool ensures TxBacked(cfg, Latest(s.history), p.0, p.1, rec') {
      if p in s.pool {
        TxStaysBacked(cfg, Latest(s.history), Latest(s.history), p.0, p.1, rec, rec');
      } else {
        CallIsBacked(cfg, s.history, s.relayers[r], e.a, r, call.value, rec);
        TxStaysBacked(cfg, Latest(s.history), Latest(s.history), r, p.1, rec, rec');
      }
    }
  }

  lemma DeliveryKeepsBacked(cfg: Config, s: System, s': System, r: Id, tx: Tx, rec: Record)
    requires Backed(cfg, s, rec) && ContractStep(cfg, s, s', r, tx)
    requires Grows(Latest(s.history), Latest(s'.history))
    ensures Backed(cfg, s', rec)
  {
    var c := Latest(s.history);
    var d := Apply(cfg, c, r, tx);
    assert TxBacked(cfg, c, (r, tx).0, (r, tx).1, rec);
    ApplyKeepsBacked(cfg, c, r, tx, rec);
    assert Latest(s'.history) == d;
    forall p | p in s'.pool ensures TxBacked(cfg, d, p.0, p.1, rec) {
      TxStaysBacked(cfg, c, d, p.0, p.1, rec, rec);
    }
  }

  lemma StatusUpdateKeepsBacked(cfg: Config, s: System, s': System, r: Id, tx: Tx, rec: Record)
    requires HistoryGrows(cfg, s.history) && Backed(cfg, s, rec) && OtherHalfStep(s, s', r, tx)
    ensures Backed(cfg, s', rec)
  {
    if tx.BridgeTx? && tx.call.SignAction? {
      var k :| 0 <= k < |s.history| && IsSetStatus(s.history[k], tx.call.actionId);
      assert Grows(s.history[k], Latest(s.history));
    }
    assert TxBacked(cfg, Latest(s.history), r, tx, rec);
  }

  // The equations pass what holds on as one fact each.
  lemma NextKeepsBacked(cfg: Config, s: System, s': System, e: Event, rec: Record)
    requires HistoryGrows(cfg, s.history) && Grows(Latest(s.history), Latest(s'.history))
    requires cfg.honest !! cfg.faulty && Backed(cfg, s, rec) == true && Next(cfg, s, s', e) == true
    ensures Backed(cfg, s', rec + NewlyAdmitted(s, e))
  {
    match e
    case Relays(_, _) => RelayerKeepsBacked(cfg, s, s', e, rec);
    case UpdatesStatus(r, tx) =>
      StatusUpdateKeepsBacked(cfg, s, s', r, tx, rec);
      assert rec + NewlyAdmitted(s, e) == rec;
    case Misbehaves(r, tx) =>
      assert TxBacked(cfg, Latest(s.history), r, tx, rec);
      assert rec + NewlyAdmitted(s, e) == rec;
    case Delivers(r, tx) =>
      DeliveryKeepsBacked(cfg, s, s', r, tx, rec);
      assert rec + NewlyAdmitted(s, e) == rec;
  }

  lemma InitIsBacked(cfg: Config, s: System, rec: Record)
    requires Init(cfg, s) && cfg.genesis.entries == []
    ensures Backed(cfg, s, rec)
  {
  }

  lemma LatestGrows(cfg: Config, s: System, s': System, e: Event)
    requires Next(cfg, s, s', e) && HistoryGrows(cfg, s.history) && HistoryGrows(cfg, s'.history)
    ensures Grows(Latest(s.history), Latest(s'.history))
  {
    var h, h' := s.history, s'.history;
    assert Grows(h'[|h| - 1], h'[|h'| - 1]);
  }

  /** All that is needed here of the invariant. */
  lemma HistoryGoesOn(cfg: Config, systems: seq<System>, events: seq<Event>, i: nat)
    requires Assumptions(cfg) && IsExecution(cfg, systems, events) && i < |events|
    ensures HistoryGrows(cfg, systems[i].history)
    ensures Grows(Latest(systems[i].history), Latest(systems[i + 1].history))
  {
    InvariantHolds(cfg, systems, events, i);
    InvariantHolds(cfg, systems, events, i + 1);
    StepOf(cfg, systems, events, i);
    LatestGrows(cfg, systems[i], systems[i + 1], events[i]);
  }

  lemma {:induction false} AlwaysBacked(cfg: Config, systems: seq<System>, events: seq<Event>, n: nat)
    requires Assumptions(cfg) && IsExecution(cfg, systems, events) && n <= |events|
    ensures Backed(cfg, systems[n], AdmittedSoFar(systems, events, n)) == true
  {
    if n == 0 {
      InitIsBacked(cfg, systems[0], {});
    } else {
      AlwaysBacked(cfg, systems, events, n - 1);
      HistoryGoesOn(cfg, systems, events, n - 1);
      StepOf(cfg, systems, events, n - 1);
      NextKeepsBacked(cfg, systems[n - 1], systems[n], events[n - 1], AdmittedSoFar(systems, events, n - 1));
    }
  }

  // --------------------------------------------------------------- theorems

  /** Every honest signer of a transfer has itself admitted exactly that batch, in an earlier execution of its first
      step: final, next in ID and nonces, and with every token of its lists available. */
  lemma SignerAdmittedTheBatch(cfg: Config, systems: seq<System>, events: seq<Event>, n: nat, id: nat, r: Id)
    returns (j: nat)
    requires Assumptions(cfg) && IsExecution(cfg, systems, events) && n <= |events|
    requires var c := Latest(systems[n].history);
             && 1 <= id <= |c.entries| && c.entries[id - 1].action.Transfer?
             && r in c.entries[id - 1].signers && r in cfg.honest
    ensures j < n && Admits(systems[j], events[j], r, Latest(systems[n].history).entries[id - 1].action.batch)
  {
    AlwaysBacked(cfg, systems, events, n);
    var c := Latest(systems[n].history);
    assert ActionBacked(r, c.entries[id - 1].action, AdmittedSoFar(systems, events, n));
    j := AdmissionHappened(systems, events, n, r, c.entries[id - 1].action.batch);
  }

  /** A performed transfer has at least quorum signers, at least as many honest ones as the quorum exceeds the faulty
      relayers, and each of those admitted the batch itself. */
  lemma PerformedWasAdmitted(cfg: Config, systems: seq<System>, events: seq<Event>, n: nat, id: nat)
    requires Assumptions(cfg) && IsExecution(cfg, systems, events) && n <= |events|
    requires var c := Latest(systems[n].history);
             1 <= id <= |c.entries| && c.entries[id - 1].performed && c.entries[id - 1].action.Transfer?
    ensures var e := Latest(systems[n].history).entries[id - 1];
            && |e.signers| >= cfg.quorum
            && |e.signers * cfg.honest| >= cfg.quorum - |cfg.faulty|
            && forall r :: r in e.signers * cfg.honest ==>
                 exists j :: 0 <= j < n && Admits(systems[j], events[j], r, e.action.batch)
  {
    PerformedWasVouchedFor(cfg, systems, events, n, id);
    var e := Latest(systems[n].history).entries[id - 1];
    forall r | r in e.signers * cfg.honest
      ensures exists j :: 0 <= j < n && Admits(systems[j], events[j], r, e.action.batch)
    {
      var j := SignerAdmittedTheBatch(cfg, systems, events, n, id, r);
    }
  }

  /** What an honest relayer is about to sign is an action proposed for the batch it holds, which it has admitted. */
  lemma SignsOnlyWhatItAdmitted(cfg: Config, systems: seq<System>, events: seq<Event>, n: nat, r: Id, a: Answers,
                                id: u64)
    returns (j: nat)
    requires Assumptions(cfg) && IsExecution(cfg, systems, events) && n <= |events|
    requires r in systems[n].relayers && HonestAnswers(cfg, systems[n].history, systems[n].relayers[r], a)
    requires Execute(cfg.maxRetries, systems[n].relayers[r], a).1 == Some(SignAction(id))
    ensures NamesAction(Latest(systems[n].history), systems[n].relayers[r].(actionId := id))
    ensures j < n && Admits(systems[j], events[j], r, WireOf(systems[n].relayers[r].batch.value))
  {
    HonestSignsOnlyItsBatch(cfg, systems, events, n, r, a, id);
    AlwaysBacked(cfg, systems, events, n);
    ExecuteKeeps(cfg.maxRetries, systems[n].relayers[r], a);
    assert RelayerBacked(r, systems[n].relayers[r], AdmittedSoFar(systems, events, n));
    j := AdmissionHappened(systems, events, n, r, WireOf(systems[n].relayers[r].batch.value));
  }

  lemma AdmittedIsPayable(b: Batch, a: Answers, ch: BV.Clients, end: u64)
    requires Admitted(b, a) && BV.WalksEnd(ch, end) && ChecksTokens(a, ch, end)
    ensures Payable(b, ch, end)
  {
    AdmittedTokensPass(b, a, ch, end, |b.deposits|);
    var arg := ListsOf(b.deposits, ToMultiversX);
    assert arg.mvxTokens[..|b.deposits|] == arg.mvxTokens && arg.amounts[..|b.deposits|] == arg.amounts;
  }

  /** When the token answers of the admitting execution are those of the executor's check, every honest signer knew then
      that the safe could pay the batch, deposit by deposit, unless one of its tokens is ambiguous. */
  lemma SignedBatchCouldBePaid(cfg: Config, systems: seq<System>, events: seq<Event>, n: nat, id: nat, r: Id)
    returns (j: nat)
    requires Assumptions(cfg) && IsExecution(cfg, systems, events) && n <= |events|
    requires var c := Latest(systems[n].history);
             && 1 <= id <= |c.entries| && c.entries[id - 1].action.Transfer?
             && r in c.entries[id - 1].signers && r in cfg.honest
    ensures j < n && Admits(systems[j], events[j], r, Latest(systems[n].history).entries[id - 1].action.batch)
    ensures forall ch: BV.Clients, end: u64 :: BV.WalksEnd(ch, end) && ChecksTokens(events[j].a, ch, end) ==>
              Payable(Offered(events[j].a).value, ch, end)
  {
    j := SignerAdmittedTheBatch(cfg, systems, events, n, id, r);
    forall ch: BV.Clients, end: u64 | BV.WalksEnd(ch, end) && ChecksTokens(events[j].a, ch, end)
      ensures Payable(Offered(events[j].a).value, ch, end)
    {
      AdmittedIsPayable(Offered(events[j].a).value, events[j].a, ch, end);
    }
  }

  ghost predicate Payable(b: Batch, ch: BV.Clients, end: u64)
    requires BV.WalksEnd(ch, end)
  {
    var arg := ListsOf(b.deposits, ToMultiversX);
    && Passes(ch, arg, end)
    && ((forall m :: !Ambiguous(arg.ethTokens, arg.mvxTokens, m)) ==>
          Pay(SafeOf(ch.onMvx, arg.mvxTokens), MintedOf(ch.onMvx, arg.mvxTokens), arg.mvxTokens, arg.amounts).Some?)
  }
}
