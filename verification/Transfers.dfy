/** The way of a transfer to Ethereum: the machine of one relayer and the messages it hears, in any interleaving. */
module Transfers {
  import opened Common
  import opened Batches
  import opened BatchLists
  import opened MvxToEth
  import opened MvxToEthRuns
  import Gossip
  import GossipRuns

  /** The machine executes its current step, or a message arrives. */
  datatype Event = Executes(a: Answers) | Hears(d: Gossip.Delivery)

  function AnswersOf(js: seq<Event>): seq<Answers> {
    if js == [] then []
    else
      var last := js[|js| - 1];
      AnswersOf(js[..|js| - 1]) + if last.Executes? then [last.a] else []
  }

  function StatesOf(cfg: Config, js: seq<Event>): (states: seq<State>)
    ensures |states| == |AnswersOf(js)| + 1
  {
    if js == [] then [Initial()]
    else
      var before, last := StatesOf(cfg, js[..|js| - 1]), js[|js| - 1];
      if last.Hears? then before else before + [Execute(cfg, before[|before| - 1], last.a).0]
  }

  function Current(cfg: Config, js: seq<Event>): State {
    StatesOf(cfg, js)[|AnswersOf(js)|]
  }

  /** What happens to the stored signatures: messages come in, and the machine clears them when it asks for that. */
  function GossipOf(cfg: Config, js: seq<Event>): seq<GossipRuns.Event> {
    if js == [] then []
    else
      var before, last := js[..|js| - 1], js[|js| - 1];
      GossipOf(cfg, before) +
      if last.Hears? then [GossipRuns.Receive(last.d)]
      else if Execute(cfg, Current(cfg, before), last.a).1 == Some(ClearSignatures) then [GossipRuns.Clear]
      else []
  }

  lemma {:induction false} MachineRuns(cfg: Config, js: seq<Event>)
    ensures IsRun(cfg, AnswersOf(js), StatesOf(cfg, js))
  {
    if js != [] {
      MachineRuns(cfg, js[..|js| - 1]);
    }
  }

  lemma OneMore(cfg: Config, js: seq<Event>, a: Answers)
    ensures AnswersOf(js + [Executes(a)]) == AnswersOf(js) + [a]
    ensures StatesOf(cfg, js + [Executes(a)]) == StatesOf(cfg, js) + [Execute(cfg, Current(cfg, js), a).0]
  {
    assert (js + [Executes(a)])[..|js|] == js;
  }

  /** The machine executes on `a` and asks for a transfer, for which `sigs` are picked. */
  ghost predicate Submits(cfg: Config, net: Gossip.Primitives, js: seq<Event>, times: nat, a: Answers, call: Call,
                          sigs: seq<Bytes>)
  {
    && Execute(cfg, Current(cfg, js), a).1 == Some(call) && call.ExecuteTransfer?
    && GossipRuns.Selectable(sigs, GossipRuns.StoreOf(net, GossipOf(cfg, js), times).For(call.hash), call.quorum)
  }

  /** A transfer goes out only under the hash of exactly its own lists, with as many signatures as the quorum asks,
      each of them brought by a different message that was accepted and verified for that hash since the machine last
      cleared the store. */
  lemma SubmittedTransferIsVouchedFor(cfg: Config, net: Gossip.Primitives, js: seq<Event>, times: nat, a: Answers,
                                      call: Call,
                                      sigs: seq<Bytes>)
    returns (sources: seq<nat>)
    requires times >= 1 && Submits(cfg, net, js, times, a, call, sigs)
    ensures cfg.hash(call.lists, call.batchId) == Some(call.hash)
    ensures Current(cfg, js).batch.Some?
    ensures var b := Current(cfg, js).batch.value;
            call.lists == ListsOf(b.deposits, FromMultiversX) && call.batchId == b.id
    ensures |sources| == call.quorum && Distinct(sources)
    ensures forall i :: 0 <= i < |sources| ==>
              GossipRuns.Vouches(net, GossipOf(cfg, js), sources[i], sigs[i], call.hash)
  {
    var next := js + [Executes(a)];
    MachineRuns(cfg, next);
    OneMore(cfg, js, a);
    var n := |AnswersOf(js)|;
    assert StatesOf(cfg, next)[n] == Current(cfg, js) && AnswersOf(next)[n] == a;
    var _, _ := TransferMatchesItsHash(cfg, AnswersOf(next), StatesOf(cfg, next), n);
    sources := GossipRuns.SubmittedAreVouched(net, GossipOf(cfg, js), times, call.hash, sigs);
  }

  /** Whatever is picked, the transfer is signed by as many different relayers as the quorum if and only if the quorum
      is below two or no two of the gathered strings recover to the same signer. */
  lemma SubmittedByDifferentSignersIff(cfg: Config, net: Gossip.Primitives, js: seq<Event>, times: nat, a: Answers,
                                       call: Call)
    requires Execute(cfg, Current(cfg, js), a).1 == Some(call) && call.ExecuteTransfer?
    requires call.quorum <= |GossipRuns.StoreOf(net, GossipOf(cfg, js), times).For(call.hash)|
    ensures var gathered := GossipRuns.StoreOf(net, GossipOf(cfg, js), times).For(call.hash);
            (forall sigs :: Submits(cfg, net, js, times, a, call, sigs) ==>
               GossipRuns.SignersDiffer(net, call.hash, sigs)) <==>
            call.quorum < 2 || GossipRuns.OneStringPerSigner(net, call.hash, gathered)
  {
    var gathered := GossipRuns.StoreOf(net, GossipOf(cfg, js), times).For(call.hash);
    GossipRuns.QuorumIsOfDifferentSignersIff(net, call.hash, gathered, call.quorum);
    assert forall sigs :: Submits(cfg, net, js, times, a, call, sigs) <==>
                          GossipRuns.Selectable(sigs, gathered, call.quorum);
  }
}
