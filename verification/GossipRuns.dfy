/** What holds over every run of the broadcaster: replays, lost messages, and where submitted signatures come from. */
module GossipRuns {
  import opened Common
  import opened Signatures
  import opened Gossip

  /** A run: messages arrive and the stored signatures are cleared. */
  datatype Event = Receive(d: Delivery) | Clear

  /** The nonce table after a run, each message handled as by Broadcaster.ProcessReceivedMessage. */
  function NoncesOf(net: Primitives, es: seq<Event>): map<Bytes, u64> {
    if es == [] then map[]
    else
      var n := |es| - 1;
      if es[n].Clear? then NoncesOf(net, es[..n]) else NoncesAfter(net, NoncesOf(net, es[..n]), es[n].d)
  }

  /** The store of a client registered `times` times. */
  function StoreOf(net: Primitives, es: seq<Event>, times: nat): Store {
    if es == [] then Store(map[], [])
    else
      var n := |es| - 1;
      var before := StoreOf(net, es[..n], times);
      if es[n].Clear? then Store(map[], [])
      else
        var notice := Notice(net, NoncesOf(net, es[..n]), es[n].d);
        if notice.None? then before else before.With(es[n].d.data.value, notice.value, times)
  }

  // -------------------------------------------------------- the nonce gate

  predicate AuthenticAt(net: Primitives, es: seq<Event>, i: nat) {
    i < |es| && es[i].Receive? && Authentic(net, es[i].d)
  }

  predicate From(net: Primitives, es: seq<Event>, i: nat, key: Bytes) {
    AuthenticAt(net, es, i) && es[i].d.data.value.publicKey == key
  }

  function NonceAt(es: seq<Event>, i: nat): u64
    requires i < |es| && es[i].Receive? && es[i].d.data.Some?
  {
    es[i].d.data.value.nonce
  }

  /** The message at `i` gets past the nonce gate. */
  predicate PassedAt(net: Primitives, es: seq<Event>, i: nat) {
    i < |es| && es[i].Receive? && Fresh(net, NoncesOf(net, es[..i]), es[i].d)
  }

  /** The greatest nonce among the authentic messages from `key`, zero without any. */
  function Highest(net: Primitives, es: seq<Event>, key: Bytes): u64 {
    if es == [] then 0
    else
      var n := |es| - 1;
      var before := Highest(net, es[..n], key);
      if From(net, es, n, key) && NonceAt(es, n) > before then NonceAt(es, n) else before
  }

  lemma {:induction false} TableHoldsHighest(net: Primitives, es: seq<Event>, key: Bytes)
    ensures LastNonce(NoncesOf(net, es), key) == Highest(net, es, key)
  {
    if es != [] {
      TableHoldsHighest(net, es[..|es| - 1], key);
    }
  }

  lemma {:induction false} HighestIsABound(net: Primitives, es: seq<Event>, key: Bytes, j: nat)
    requires From(net, es, j, key)
    ensures NonceAt(es, j) <= Highest(net, es, key)
  {
    var n := |es| - 1;
    if j < n {
      assert es[..n][j] == es[j];
      HighestIsABound(net, es[..n], key, j);
    }
  }

  lemma {:induction false} HighestIsAttained(net: Primitives, es: seq<Event>, key: Bytes) returns (j: nat)
    requires Highest(net, es, key) > 0
    ensures From(net, es, j, key) && NonceAt(es, j) == Highest(net, es, key)
  {
    var n := |es| - 1;
    if From(net, es, n, key) && NonceAt(es, n) == Highest(net, es, key) {
      j := n;
    } else {
      j := HighestIsAttained(net, es[..n], key);
      assert es[..n][j] == es[j];
    }
  }

  /** All earlier authentic messages from the same sender have smaller nonces. */
  ghost predicate RunningMaximum(net: Primitives, es: seq<Event>, i: nat)
    requires AuthenticAt(net, es, i)
  {
    forall j :: 0 <= j < i && From(net, es, j, es[i].d.data.value.publicKey) ==> NonceAt(es, j) < NonceAt(es, i)
  }

  /** The messages past the gate are, per sender, exactly the strict left-to-right maxima above zero. */
  lemma PassedIffRunningMaximum(net: Primitives, es: seq<Event>, i: nat)
    ensures PassedAt(net, es, i) <==> AuthenticAt(net, es, i) && NonceAt(es, i) > 0 && RunningMaximum(net, es, i)
  {
    if AuthenticAt(net, es, i) {
      var key := es[i].d.data.value.publicKey;
      TableHoldsHighest(net, es[..i], key);
      forall j | 0 <= j < i && From(net, es, j, key) ensures NonceAt(es, j) <= Highest(net, es[..i], key) {
        assert es[..i][j] == es[j];
        HighestIsABound(net, es[..i], key, j);
      }
      if Highest(net, es[..i], key) > 0 {
        var j := HighestIsAttained(net, es[..i], key);
        assert es[..i][j] == es[j];
        assert From(net, es, j, key);
      }
    }
  }

  /** Messages of one sender pass with growing nonces: none is processed twice. */
  lemma PassedInGrowingOrder(net: Primitives, es: seq<Event>, i: nat, j: nat)
    requires i < j && PassedAt(net, es, i) && PassedAt(net, es, j)
    requires es[i].d.data.value.publicKey == es[j].d.data.value.publicKey
    ensures NonceAt(es, i) < NonceAt(es, j)
  {
    PassedIffRunningMaximum(net, es, j);
    assert From(net, es, i, es[j].d.data.value.publicKey);
  }

  /** No authentic delivery of the same message before `i`. */
  ghost predicate FirstDelivery(net: Primitives, es: seq<Event>, i: nat) {
    && AuthenticAt(net, es, i)
    && forall j :: 0 <= j < i && AuthenticAt(net, es, j) ==> es[j].d.data != es[i].d.data
  }

  lemma {:induction false} FirstOf(net: Primitives, es: seq<Event>, i: nat) returns (first: nat)
    requires AuthenticAt(net, es, i)
    ensures first <= i && FirstDelivery(net, es, first) && es[first].d.data == es[i].d.data
  {
    if FirstDelivery(net, es, i) {
      return i;
    }
    var j :| 0 <= j < i && AuthenticAt(net, es, j) && es[j].d.data == es[i].d.data;
    first := FirstOf(net, es, j);
  }

  /** The messages of `key` are numbered above zero and first arrive in that order. */
  ghost predicate ArriveInOrder(net: Primitives, es: seq<Event>, key: Bytes) {
    && (forall i: nat :: From(net, es, i, key) ==> NonceAt(es, i) > 0)
    && (forall i: nat, j: nat ::
          i < j && From(net, es, i, key) && From(net, es, j, key)
          && FirstDelivery(net, es, i) && FirstDelivery(net, es, j) ==>
            NonceAt(es, i) < NonceAt(es, j))
  }

  /** The nonce of the `k`-th message that Broadcaster.CreateMessage makes after the counter stood at `start`. */
  function NthNonce(start: u64, k: nat): u64 {
    if k == 0 then Succ(start) else Succ(NthNonce(start, k - 1))
  }

  ghost predicate NoncesGrow(start: u64, n: nat) {
    && (forall k: nat :: k < n ==> NthNonce(start, k) > 0)
    && (forall j: nat, k: nat :: j < k < n ==> NthNonce(start, j) < NthNonce(start, k))
  }

  lemma {:induction false} NthNonceCounts(start: u64, k: nat)
    requires start + k < U64
    ensures NthNonce(start, k) == Succ(start + k)
  {
    if k > 0 {
      NthNonceCounts(start, k - 1);
    }
  }

  /** The messages a relayer makes one after the other carry growing nonces above zero if and only if its counter does
      not wrap; it starts from the clock in nanoseconds. */
  lemma NoncesGrowIffNoWrap(start: u64, n: nat)
    ensures NoncesGrow(start, n) <==> start + n < U64
  {
    if start + n < U64 {
      forall k: nat | k < n ensures NthNonce(start, k) == start + 1 + k {
        NthNonceCounts(start, k);
      }
    } else {
      NthNonceCounts(start, U64 - 1 - start);
      assert NthNonce(start, U64 - 1 - start) == 0;
    }
  }

  /** `sent` are the messages of `key`, made in this order, and nobody else can make one. */
  ghost predicate CreatedInOrder(net: Primitives, es: seq<Event>, key: Bytes, sent: seq<SignedMessage>, start: u64) {
    && (forall k: nat :: k < |sent| ==> sent[k].publicKey == key && sent[k].nonce == NthNonce(start, k))
    && (forall i: nat :: From(net, es, i, key) ==> es[i].d.data.value in sent)
  }

  /** The first delivery at `i` is that of the `a`-th message. */
  ghost predicate Brings(net: Primitives, es: seq<Event>, i: nat, sent: seq<SignedMessage>, a: nat) {
    FirstDelivery(net, es, i) && a < |sent| && es[i].d.data == Some(sent[a])
  }

  /** They first arrive in the order in which they were made. */
  ghost predicate DeliveredInOrder(net: Primitives, es: seq<Event>, sent: seq<SignedMessage>) {
    forall i: nat, j: nat, a: nat, b: nat ::
      i < j && Brings(net, es, i, sent, a) && Brings(net, es, j, sent, b) ==> a < b
  }

  lemma WhichMessage(net: Primitives, es: seq<Event>, key: Bytes, sent: seq<SignedMessage>, start: u64, i: nat)
    returns (a: nat)
    requires CreatedInOrder(net, es, key, sent, start) && From(net, es, i, key)
    ensures a < |sent| && es[i].d.data == Some(sent[a]) && NonceAt(es, i) == NthNonce(start, a)
  {
    a :| a < |sent| && sent[a] == es[i].d.data.value;
  }

  /** What a relayer makes is heard in order when it arrives in order, as long as its counter does not wrap. */
  lemma CreatedArriveInOrder(net: Primitives, es: seq<Event>, key: Bytes, sent: seq<SignedMessage>, start: u64)
    requires CreatedInOrder(net, es, key, sent, start) && DeliveredInOrder(net, es, sent)
    requires start + |sent| < U64
    ensures ArriveInOrder(net, es, key)
  {
    NoncesGrowIffNoWrap(start, |sent|);
    forall i: nat | From(net, es, i, key) ensures NonceAt(es, i) > 0 {
      var a := WhichMessage(net, es, key, sent, start, i);
    }
    forall i: nat, j: nat | i < j && From(net, es, i, key) && From(net, es, j, key)
                            && FirstDelivery(net, es, i) && FirstDelivery(net, es, j)
      ensures NonceAt(es, i) < NonceAt(es, j)
    {
      var a := WhichMessage(net, es, key, sent, start, i);
      var b := WhichMessage(net, es, key, sent, start, j);
      assert Brings(net, es, i, sent, a) && Brings(net, es, j, sent, b);
    }
  }

  /** The message at `i` is accepted: past the nonce gate and past the antiflood check behind it. */
  predicate AcceptedAt(net: Primitives, es: seq<Event>, i: nat) {
    i < |es| && es[i].Receive? && Verdict(net, NoncesOf(net, es[..i]), es[i].d).Ok?
  }

  lemma AcceptedIffPassedUnflooded(net: Primitives, es: seq<Event>, i: nat)
    ensures AcceptedAt(net, es, i) <==> PassedAt(net, es, i) && !es[i].d.flooded
  {
  }

  /** A message that is flooded away after its nonce was taken is lost for good: no later delivery of it is accepted. */
  lemma FloodedIsLostForGood(net: Primitives, es: seq<Event>, i: nat, j: nat)
    requires PassedAt(net, es, i) && es[i].d.flooded
    requires i <= j < |es| && es[j].Receive? && es[j].d.data == es[i].d.data
    ensures !AcceptedAt(net, es, j)
  {
    AcceptedIffPassedUnflooded(net, es, j);
    if i < j && PassedAt(net, es, j) {
      PassedInGrowingOrder(net, es, i, j);
    }
  }

  /** A sender whose numbered messages first arrive in order has exactly the first delivery of each pass the nonce gate,
      whatever is replayed in between; it is accepted if and only if that first delivery is not flooded. */
  lemma InOrderSenderIsHeard(net: Primitives, es: seq<Event>, key: Bytes, i: nat)
    requires ArriveInOrder(net, es, key) && From(net, es, i, key)
    ensures PassedAt(net, es, i) <==> FirstDelivery(net, es, i)
    ensures AcceptedAt(net, es, i) <==> FirstDelivery(net, es, i) && !es[i].d.flooded
  {
    AcceptedIffPassedUnflooded(net, es, i);
    PassedIffRunningMaximum(net, es, i);
    if FirstDelivery(net, es, i) {
      forall j | 0 <= j < i && From(net, es, j, key) ensures NonceAt(es, j) < NonceAt(es, i) {
        var first := FirstOf(net, es, j);
        assert From(net, es, first, key);
      }
    } else if PassedAt(net, es, i) {
      var j :| 0 <= j < i && AuthenticAt(net, es, j) && es[j].d.data == es[i].d.data;
      assert From(net, es, j, key);
      assert false;
    }
  }

  predicate SameSender(es: seq<Event>, i: nat, j: nat) {
    && i < |es| && es[i].Receive? && es[i].d.data.Some?
    && j < |es| && es[j].Receive? && es[j].d.data.Some?
    && es[i].d.data.value.publicKey == es[j].d.data.value.publicKey
  }

  /** The nonces of each sender grow from message to message. */
  ghost predicate Ascending(es: seq<Event>) {
    forall i: nat, j: nat :: i < j && SameSender(es, i, j) ==> NonceAt(es, i) < NonceAt(es, j)
  }

  predicate FloodedAt(es: seq<Event>, i: nat) {
    i < |es| && es[i].Receive? && es[i].d.flooded
  }

  /** Stored messages sent to a relayer that has seen nothing yet, all of them authentic to it, are all accepted if and
      only if those of each sender arrive with growing nonces and none is flooded; the answer to a join request sees to
      neither. */
  lemma ResyncIsCompleteIff(net: Primitives, es: seq<Event>)
    requires forall i: nat :: i < |es| ==> AuthenticAt(net, es, i) && NonceAt(es, i) > 0
    ensures (forall i: nat :: i < |es| ==> AcceptedAt(net, es, i)) <==>
            Ascending(es) && forall i: nat :: !FloodedAt(es, i)
  {
    AllPassIffAscending(net, es);
    forall i: nat | i < |es| ensures AcceptedAt(net, es, i) <==> PassedAt(net, es, i) && !FloodedAt(es, i) {
      AcceptedIffPassedUnflooded(net, es, i);
    }
  }

  lemma AllPassIffAscending(net: Primitives, es: seq<Event>)
    requires forall i: nat :: i < |es| ==> AuthenticAt(net, es, i) && NonceAt(es, i) > 0
    ensures (forall i: nat :: i < |es| ==> PassedAt(net, es, i)) <==> Ascending(es)
  {
    if forall i: nat :: i < |es| ==> PassedAt(net, es, i) {
      forall i: nat, j: nat | i < j && SameSender(es, i, j) ensures NonceAt(es, i) < NonceAt(es, j) {
        PassedInGrowingOrder(net, es, i, j);
      }
    } else {
      var i: nat :| i < |es| && !PassedAt(net, es, i);
      PassedIffRunningMaximum(net, es, i);
      var j :| 0 <= j < i && From(net, es, j, es[i].d.data.value.publicKey) && NonceAt(es, j) >= NonceAt(es, i);
      assert SameSender(es, j, i);
    }
  }

  // ------------------------------------------- where the signatures come from

  /** The message at `i` was accepted and its signature handed to the clients. */
  predicate DeliveredAt(net: Primitives, es: seq<Event>, i: nat, eth: EthereumSignature) {
    i < |es| && es[i].Receive? && Notice(net, NoncesOf(net, es[..i]), es[i].d) == Some(eth)
  }

  predicate SinceClear(es: seq<Event>, i: nat) {
    forall j :: i <= j < |es| ==> !es[j].Clear?
  }

  lemma {:induction false} WithKeeps(s: Store, msg: SignedMessage, eth: EthereumSignature, times: nat)
    ensures Elements(s.With(msg, eth, times).ethMessages) == Elements(s.ethMessages) + if times == 0 then {} else {eth}
  {
    if times > 0 {
      WithKeeps(s, msg, eth, times - 1);
    }
  }

  lemma DeliveredInPrefix(net: Primitives, es: seq<Event>, i: nat, eth: EthereumSignature)
    requires i + 1 < |es| && es[|es| - 1].Receive?
    ensures DeliveredAt(net, es[..|es| - 1], i, eth) <==> DeliveredAt(net, es, i, eth)
    ensures SinceClear(es[..|es| - 1], i) <==> SinceClear(es, i)
  {
    var init := es[..|es| - 1];
    assert init[..i] == es[..i] && init[i] == es[i];
    if SinceClear(init, i) {
      forall j | i <= j < |es| ensures !es[j].Clear? {
        if j < |init| {
          assert init[j] == es[j];
        }
      }
    }
  }

  /** What is stored was delivered since the last clear, */
  lemma {:induction false} StoredWasDelivered(net: Primitives, es: seq<Event>, times: nat, eth: EthereumSignature)
    returns (i: nat)
    requires eth in StoreOf(net, es, times).ethMessages
    ensures DeliveredAt(net, es, i, eth) && SinceClear(es, i)
  {
    var n := |es| - 1;
    var notice := Notice(net, NoncesOf(net, es[..n]), es[n].d);
    if notice.Some? {
      WithKeeps(StoreOf(net, es[..n], times), es[n].d.data.value, notice.value, times);
      assert eth in Elements(StoreOf(net, es, times).ethMessages);
    }
    if notice == Some(eth) {
      return n;
    }
    i := StoredWasDelivered(net, es[..n], times, eth);
    DeliveredInPrefix(net, es, i, eth);
  }

  /** and what was delivered since then is stored. */
  lemma {:induction false} DeliveredIsStored(net: Primitives, es: seq<Event>, times: nat, eth: EthereumSignature,
                                             i: nat)
    requires times >= 1 && DeliveredAt(net, es, i, eth) && SinceClear(es, i)
    ensures eth in StoreOf(net, es, times).ethMessages
  {
    var n := |es| - 1;
    var notice := Notice(net, NoncesOf(net, es[..n]), es[n].d);
    if notice.Some? {
      WithKeeps(StoreOf(net, es[..n], times), es[n].d.data.value, notice.value, times);
    }
    if i < n {
      DeliveredInPrefix(net, es, i, eth);
      DeliveredIsStored(net, es[..n], times, eth, i);
    }
    assert eth in Elements(StoreOf(net, es, times).ethMessages);
  }

  /** An accepted message past every check, carrying a signature for `hash`. */
  ghost predicate Vouches(net: Primitives, es: seq<Event>, i: nat, sig: Bytes, hash: Bytes) {
    && PassedAt(net, es, i)
    && SinceClear(es, i)
    && es[i].d.topic.SignTopic?
    && !es[i].d.flooded
    && net.decode(es[i].d.data.value.payload) == Some(EthereumSignature(sig, hash))
    && VerifiesEth(net, EthereumSignature(sig, hash), es[i].d.ethWhitelist)
  }

  lemma DeliveredVouches(net: Primitives, es: seq<Event>, i: nat, eth: EthereumSignature)
    requires SinceClear(es, i)
    ensures DeliveredAt(net, es, i, eth) <==> Vouches(net, es, i, eth.signature, eth.messageHash)
  {
    assert eth == EthereumSignature(eth.signature, eth.messageHash);
  }

  /** A signature is at hand for a transfer if and only if some accepted message since the last clear vouches for it. */
  lemma GatheredIffVouched(net: Primitives, es: seq<Event>, times: nat, hash: Bytes, sig: Bytes)
    requires times >= 1
    ensures sig in StoreOf(net, es, times).For(hash) <==> exists i :: Vouches(net, es, i, sig, hash)
  {
    var eth := EthereumSignature(sig, hash);
    if sig in StoreOf(net, es, times).For(hash) {
      assert eth in StoreOf(net, es, times).ethMessages;
      var i := StoredWasDelivered(net, es, times, eth);
      DeliveredVouches(net, es, i, eth);
    }
    if i :| Vouches(net, es, i, sig, hash) {
      DeliveredVouches(net, es, i, eth);
      DeliveredIsStored(net, es, times, eth, i);
    }
  }

  /** What SignaturesHolder.SelectForTransfer picks: as many different accepted messages as the quorum vouch for the
      signatures one by one. */
  lemma SubmittedAreVouched(net: Primitives, es: seq<Event>, times: nat, hash: Bytes, sigs: seq<Bytes>)
    returns (sources: seq<nat>)
    requires times >= 1 && Distinct(sigs) && Elements(sigs) <= StoreOf(net, es, times).For(hash)
    ensures |sources| == |sigs| && Distinct(sources)
    ensures forall k :: 0 <= k < |sigs| ==> Vouches(net, es, sources[k], sigs[k], hash)
  {
    sources := [];
    for k := 0 to |sigs|
      invariant |sources| == k
      invariant forall j :: 0 <= j < k ==> Vouches(net, es, sources[j], sigs[j], hash)
    {
      assert sigs[k] in Elements(sigs);
      GatheredIffVouched(net, es, times, hash, sigs[k]);
      var i: nat :| Vouches(net, es, i, sigs[k], hash);
      sources := sources + [i];
    }
  }

  // ------------------------------------------------------ how many signers

  /** What SignaturesHolder.SelectForTransfer may pick. */
  ghost predicate Selectable(sigs: seq<Bytes>, gathered: set<Bytes>, quorum: nat) {
    |sigs| == quorum && Distinct(sigs) && Elements(sigs) <= gathered
  }

  ghost predicate SignersDiffer(net: Primitives, hash: Bytes, sigs: seq<Bytes>) {
    forall i, j :: 0 <= i < j < |sigs| ==> net.recover(hash, sigs[i]) != net.recover(hash, sigs[j])
  }

  /** No two of the gathered byte strings recover to the same signer. */
  ghost predicate OneStringPerSigner(net: Primitives, hash: Bytes, gathered: set<Bytes>) {
    forall x, y :: x in gathered && y in gathered && x != y ==> net.recover(hash, x) != net.recover(hash, y)
  }

  /** Any start of a selection can be completed. */
  lemma CompleteSelection(start: seq<Bytes>, gathered: set<Bytes>, quorum: nat) returns (sigs: seq<Bytes>)
    requires Distinct(start) && Elements(start) <= gathered && |start| <= quorum <= |gathered|
    ensures Selectable(sigs, gathered, quorum) && start <= sigs
  {
    sigs := start;
    while |sigs| < quorum
      invariant start <= sigs && |sigs| <= quorum && Distinct(sigs) && Elements(sigs) <= gathered
    {
      DistinctCardinality(sigs);
      if gathered <= Elements(sigs) {
        SubsetCardinality(gathered, Elements(sigs));
      }
      var x :| x in gathered && x !in Elements(sigs);
      sigs := sigs + [x];
    }
  }

  /** De-duplication is by byte string. Whatever is picked for a transfer comes from pairwise different signers if and
      only if a quorum has one member or no two gathered strings recover to the same signer. */
  lemma QuorumIsOfDifferentSignersIff(net: Primitives, hash: Bytes, gathered: set<Bytes>, quorum: nat)
    requires quorum <= |gathered|
    ensures (forall sigs :: Selectable(sigs, gathered, quorum) ==> SignersDiffer(net, hash, sigs)) <==>
            quorum < 2 || OneStringPerSigner(net, hash, gathered)
  {
    if quorum >= 2 && !OneStringPerSigner(net, hash, gathered) {
      var x, y :| x in gathered && y in gathered && x != y && net.recover(hash, x) == net.recover(hash, y);
      var sigs := CompleteSelection([x, y], gathered, quorum);
      assert sigs[0] == x && sigs[1] == y;
      assert !SignersDiffer(net, hash, sigs);
    } else {
      forall sigs | Selectable(sigs, gathered, quorum) ensures SignersDiffer(net, hash, sigs) {
        forall i, j | 0 <= i < j < |sigs| ensures net.recover(hash, sigs[i]) != net.recover(hash, sigs[j]) {
          assert sigs[i] in Elements(sigs) && sigs[j] in Elements(sigs);
        }
      }
    }
  }

  // ----------------------------------------------------------- two examples

  /** Everything verifies; a payload is a signature on one and the same hash, and signer 7 made them all. */
  function Trusting(): Primitives {
    Primitives((k: Bytes) => true, (k: Bytes, b: Bytes, s: Bytes) => true,
               (p: Bytes) => Some(EthereumSignature(p, [1])),
               (h: Bytes, s: Bytes) => Some([7]), (h: Bytes, s: Bytes) => true)
  }

  function Message(payload: byte, nonce: u64): SignedMessage {
    SignedMessage([payload], [5], [], nonce)
  }

  /** A sign message of the one whitelisted relayer. */
  function Signs(payload: byte, nonce: u64): Event {
    Receive(Delivery(Some(Message(payload, nonce)), [], [], SignTopic, {[5]}, false, {[7]}))
  }

  lemma SignsIsAuthentic(payload: byte, nonce: u64)
    ensures Authentic(Trusting(), Signs(payload, nonce).d)
    ensures GetEthereumSignature(Trusting(), Message(payload, nonce), {[7]}) == Some(EthereumSignature([payload], [1]))
  {
  }

  lemma BothPass()
    ensures var es := [Signs(1, 1), Signs(2, 2)]; PassedAt(Trusting(), es, 0) && PassedAt(Trusting(), es, 1)
  {
    var es := [Signs(1, 1), Signs(2, 2)];
    SignsIsAuthentic(1, 1);
    SignsIsAuthentic(2, 2);
    PassedIffRunningMaximum(Trusting(), es, 0);
    PassedIffRunningMaximum(Trusting(), es, 1);
  }

  lemma BothVouch()
    ensures var es := [Signs(1, 1), Signs(2, 2)];
            Vouches(Trusting(), es, 0, [1], [1]) && Vouches(Trusting(), es, 1, [2], [1])
  {
    BothPass();
    SignsIsAuthentic(1, 1);
    SignsIsAuthentic(2, 2);
  }

  /** Two accepted messages with different strings of one signer: a quorum of two is met by that signer alone. */
  lemma OneSignerMeetsQuorum() returns (net: Primitives, es: seq<Event>, hash: Bytes, sigs: seq<Bytes>)
    ensures Selectable(sigs, StoreOf(net, es, 1).For(hash), 2)
    ensures net.recover(hash, sigs[0]) == net.recover(hash, sigs[1])
  {
    net, es, hash, sigs := Trusting(), [Signs(1, 1), Signs(2, 2)], [1], [[1], [2]];
    BothVouch();
    GatheredIffVouched(net, es, 1, hash, [1]);
    GatheredIffVouched(net, es, 1, hash, [2]);
  }

  lemma DeliveryStores(net: Primitives, es: seq<Event>, i: nat, eth: EthereumSignature)
    requires DeliveredAt(net, es, i, eth) && i + 1 == |es|
    ensures var msg := es[i].d.data.value;
            StoreOf(net, es, 1).signedMessages == StoreOf(net, es[..i], 1).signedMessages[UniqueId(msg) := msg]
  {
    var msg, before := es[i].d.data.value, StoreOf(net, es[..i], 1);
    assert before.With(msg, eth, 0) == before;
    assert StoreOf(net, es, 1) == before.With(msg, eth, 1);
  }

  lemma StoredByTwo()
    ensures StoreOf(Trusting(), [Signs(1, 1), Signs(2, 2)], 1).signedMessages ==
            map[[5, 1] := Message(1, 1), [5, 2] := Message(2, 2)]
  {
    var es := [Signs(1, 1), Signs(2, 2)];
    BothVouch();
    var first, second := EthereumSignature([1], [1]), EthereumSignature([2], [1]);
    DeliveredVouches(Trusting(), es, 0, first);
    DeliveredVouches(Trusting(), es, 1, second);
    DeliveredInPrefix(Trusting(), es, 0, first);
    DeliveryStores(Trusting(), es, 1, second);
    DeliveryStores(Trusting(), es[..1], 0, first);
    assert es[..1][..0] == [];
    assert UniqueId(Message(1, 1)) == [5, 1] && UniqueId(Message(2, 2)) == [5, 2];
  }

  lemma ByIdOfTwo()
    ensures ById([Message(2, 2), Message(1, 1)]) == map[[5, 1] := Message(1, 1), [5, 2] := Message(2, 2)]
    ensures |ById([Message(2, 2), Message(1, 1)])| == 2
  {
    ByIdStep([], Message(2, 2));
    ByIdStep([Message(2, 2)], Message(1, 1));
    assert [] + [Message(2, 2)] == [Message(2, 2)];
    assert [Message(2, 2)] + [Message(1, 1)] == [Message(2, 2), Message(1, 1)];
    assert UniqueId(Message(1, 1)) == [5, 1] && UniqueId(Message(2, 2)) == [5, 2];
  }

  lemma SecondIsLost()
    ensures var heard := [Signs(2, 2), Signs(1, 1)];
            && AuthenticAt(Trusting(), heard, 0) && AuthenticAt(Trusting(), heard, 1)
            && !PassedAt(Trusting(), heard, 1)
  {
    var heard := [Signs(2, 2), Signs(1, 1)];
    SignsIsAuthentic(1, 1);
    SignsIsAuthentic(2, 2);
    PassedIffRunningMaximum(Trusting(), heard, 1);
    assert From(Trusting(), heard, 0, [5]);
  }

  /** A join request may be answered with two stored messages of one sender in the wrong order, and the first one is
      lost. */
  lemma ResyncMayLoseAMessage()
    ensures var es, heard := [Signs(1, 1), Signs(2, 2)], [Signs(2, 2), Signs(1, 1)];
            var sent := [Message(2, 2), Message(1, 1)];
            && ById(sent) == StoreOf(Trusting(), es, 1).signedMessages && |sent| == |ById(sent)|
            && AuthenticAt(Trusting(), heard, 0) && heard[0].d.data == Some(sent[0])
            && AuthenticAt(Trusting(), heard, 1) && heard[1].d.data == Some(sent[1])
            && !PassedAt(Trusting(), heard, 1)
  {
    StoredByTwo();
    ByIdOfTwo();
    SecondIsLost();
  }

  /** A first delivery that is flooded, and the same message again when nothing is: it arrives in order and is never
      accepted. */
  lemma FloodedFirstDelivery()
    ensures var first := Receive(Signs(1, 1).d.(flooded := true));
            var es := [first, Signs(1, 1)];
            && ArriveInOrder(Trusting(), es, [5]) && FirstDelivery(Trusting(), es, 0) && PassedAt(Trusting(), es, 0)
            && !AcceptedAt(Trusting(), es, 0) && !AcceptedAt(Trusting(), es, 1)
  {
    var es := [Receive(Signs(1, 1).d.(flooded := true)), Signs(1, 1)];
    SignsIsAuthentic(1, 1);
    assert Authentic(Trusting(), es[0].d);
    PassedIffRunningMaximum(Trusting(), es, 0);
    FloodedIsLostForGood(Trusting(), es, 0, 0);
    FloodedIsLostForGood(Trusting(), es, 0, 1);
    assert !FirstDelivery(Trusting(), es, 1) by {
      assert AuthenticAt(Trusting(), es, 0) && es[0].d.data == es[1].d.data;
    }
  }
}
