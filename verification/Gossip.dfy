/** The broadcaster: which messages of other relayers it accepts, and what it does with them. */
module Gossip {
  import opened Common
  import BE = BigEndian
  import opened Signatures

  const MAX_SLICE_SIZE := 1024
  const ETH_SIGNATURE_SIZE := 64

  datatype Error = Unmarshal | InvalidSize | InvalidKey | InvalidSignature | NotWhitelisted | NonceTooLow | Flooded

  /** Cryptography and marshalling. */
  datatype Primitives = Primitives(
    isKey: Bytes -> bool,
    verify: (Bytes, Bytes, Bytes) -> bool,
    decode: Bytes -> Option<EthereumSignature>,
    recover: (Bytes, Bytes) -> Option<Bytes>,
    verifyEth: (Bytes, Bytes) -> bool)

  datatype Topic = JoinTopic | SignTopic | OtherTopic

  /** A message from the network, None when its bytes do not unmarshal, with the peer it comes from and the one that
      passed it on, and the state of the world on its arrival. */
  datatype Delivery = Delivery(
    data: Option<SignedMessage>,
    peer: Bytes,
    connectedPeer: Bytes,
    topic: Topic,
    whitelist: set<Bytes>,
    flooded: bool,
    ethWhitelist: set<Bytes>)

  // ------------------------------------------------------------ processing

  /** What the envelope's signature covers. */
  function Signed(payload: Bytes, nonce: u64): Bytes {
    payload + BE.Encode(nonce, 8)
  }

  /** The covered bytes leave no doubt about payload and nonce. */
  lemma SignedDeterminesMessage(p: Bytes, n: u64, p': Bytes, n': u64)
    requires Signed(p, n) == Signed(p', n')
    ensures p == p' && n == n'
  {
    var s := Signed(p, n);
    assert |p| == |s| - 8 == |p'|;
    assert p == s[..|p|] == p';
    assert BE.Encode(n, 8) == s[|p|..] == BE.Encode(n', 8);
    BE.RoundTrip64(n);
    BE.RoundTrip64(n');
  }

  predicate LengthsFit(msg: SignedMessage) {
    |msg.publicKey| <= MAX_SLICE_SIZE && |msg.signature| <= MAX_SLICE_SIZE && |msg.payload| <= MAX_SLICE_SIZE
  }

  function PreProcess(net: Primitives, data: Option<SignedMessage>): Result<SignedMessage, Error> {
    if data.None? then Err(Unmarshal)
    else
      var msg := data.value;
      if !LengthsFit(msg) then Err(InvalidSize)
      else if !net.isKey(msg.publicKey) then Err(InvalidKey)
      else if !net.verify(msg.publicKey, Signed(msg.payload, msg.nonce), msg.signature) then Err(InvalidSignature)
      else Ok(msg)
  }

  /** Both peers are blacklisted for bytes that do not unmarshal and for an envelope that does not verify. */
  function Blacklisted(net: Primitives, d: Delivery): set<Bytes> {
    if PreProcess(net, d.data) in {Err(Unmarshal), Err(InvalidSignature)} then {d.peer, d.connectedPeer} else {}
  }

  /** VerifyEthSignature: a whitelisted signer is recovered and the signature holds without its recovery byte. */
  predicate VerifiesEth(net: Primitives, eth: EthereumSignature, ethWhitelist: set<Bytes>) {
    var signer := net.recover(eth.messageHash, eth.signature);
    && signer.Some?
    && signer.value in ethWhitelist
    && net.verifyEth(eth.messageHash,
                     if |eth.signature| > ETH_SIGNATURE_SIZE
                     then eth.signature[..ETH_SIGNATURE_SIZE] else eth.signature)
  }

  function LastNonce(nonces: map<Bytes, u64>, key: Bytes): u64 {
    if key in nonces then nonces[key] else 0
  }

  /** The message is sound, from a whitelisted sender. */
  predicate Authentic(net: Primitives, d: Delivery) {
    PreProcess(net, d.data).Ok? && d.data.value.publicKey in d.whitelist
  }

  /** It is also newer than everything accepted from its sender. */
  predicate Fresh(net: Primitives, nonces: map<Bytes, u64>, d: Delivery) {
    Authentic(net, d) && LastNonce(nonces, d.data.value.publicKey) < d.data.value.nonce
  }

  function NoncesAfter(net: Primitives, nonces: map<Bytes, u64>, d: Delivery): map<Bytes, u64> {
    if Fresh(net, nonces, d) then nonces[d.data.value.publicKey := d.data.value.nonce] else nonces
  }

  function Verdict(net: Primitives, nonces: map<Bytes, u64>, d: Delivery): Result<SignedMessage, Error> {
    var msg :- PreProcess(net, d.data);
    if msg.publicKey !in d.whitelist then Err(NotWhitelisted)
    else if LastNonce(nonces, msg.publicKey) >= msg.nonce then Err(NonceTooLow)
    else if d.flooded then Err(Flooded)
    else Ok(msg)
  }

  function GetEthereumSignature(net: Primitives, msg: SignedMessage,
                                ethWhitelist: set<Bytes>): Option<EthereumSignature>
  {
    var eth := net.decode(msg.payload);
    if eth.Some? && VerifiesEth(net, eth.value, ethWhitelist) then eth else None
  }

  /** The signature handed to the clients, if any. */
  function Notice(net: Primitives, nonces: map<Bytes, u64>, d: Delivery): Option<EthereumSignature> {
    if Verdict(net, nonces, d).Ok? && d.topic.SignTopic?
    then GetEthereumSignature(net, d.data.value, d.ethWhitelist) else None
  }

  function MergeAll(stores: seq<Store>): map<Bytes, SignedMessage> {
    if stores == [] then map[]
    else MergeAll(stores[..|stores| - 1]) + stores[|stores| - 1].signedMessages
  }

  lemma MergeStep(stores: seq<Store>, k: nat)
    requires k < |stores|
    ensures MergeAll(stores[..k + 1]) == MergeAll(stores[..k]) + stores[k].signedMessages
  {
    assert stores[..k + 1][..k] == stores[..k];
  }

  predicate KeyedById(all: map<Bytes, SignedMessage>) {
    forall id :: id in all ==> UniqueId(all[id]) == id
  }

  lemma SumWithUpdate<K, V>(a: map<K, V>, b: map<K, V>, k: K, v: V)
    ensures (a + b)[k := v] == a + b[k := v]
  {
  }

  /** Adds the messages one by one, each under its key. */
  method Absorb(before: map<Bytes, SignedMessage>, messages: seq<SignedMessage>)
    returns (all: map<Bytes, SignedMessage>)
    requires KeyedById(before)
    ensures all == before + ById(messages) && KeyedById(all)
  {
    all := before;
    for j := 0 to |messages|
      invariant all == before + ById(messages[..j]) && KeyedById(all)
    {
      assert messages[..j + 1] == messages[..j] + [messages[j]];
      ByIdStep(messages[..j], messages[j]);
      SumWithUpdate(before, ById(messages[..j]), UniqueId(messages[j]), messages[j]);
      all := all[UniqueId(messages[j]) := messages[j]];
    }
    assert messages[..|messages|] == messages;
  }

  ghost function Stores(clients: seq<SignaturesHolder>): seq<Store>
    reads clients
  {
    seq(|clients|, i requires 0 <= i < |clients| reads clients => clients[i].View())
  }

  /** How often `c` is among the first `k` clients. */
  function Registrations(clients: seq<SignaturesHolder>, c: SignaturesHolder, k: nat): nat
    requires k <= |clients|
  {
    if k == 0 then 0 else Registrations(clients, c, k - 1) + if clients[k - 1] == c then 1 else 0
  }

  lemma WithOnceMore(s: Store, msg: SignedMessage, eth: EthereumSignature, times: nat)
    ensures s.With(msg, eth, times).With(msg, eth, 1) == s.With(msg, eth, times + 1)
  {
    assert s.With(msg, eth, times).With(msg, eth, 0) == s.With(msg, eth, times);
  }

  class Broadcaster {
    const publicKey: Bytes
    var counter: u64
    var nonces: map<Bytes, u64>
    var clients: seq<SignaturesHolder>

    constructor (publicKey: Bytes, now: u64)
      ensures this.publicKey == publicKey && counter == now && nonces == map[] && clients == []
    {
      this.publicKey := publicKey;
      counter, nonces, clients := now, map[], [];
    }

    method AddBroadcastClient(client: SignaturesHolder)
      modifies this`clients
      ensures clients == old(clients) + [client]
    {
      clients := clients + [client];
    }

    /** A message of this relayer: the counter moves on even when signing fails. */
    method CreateMessage(sign: Bytes -> Option<Bytes>, payload: Bytes) returns (r: Option<SignedMessage>)
      modifies this`counter
      ensures counter == Succ(old(counter))
      ensures r == var sig := sign(Signed(payload, counter));
                   if sig.None? then None else Some(SignedMessage(payload, publicKey, sig.value, counter))
    {
      counter := Succ(counter);
      var sig := sign(Signed(payload, counter));
      if sig.None? {
        return None;
      }
      return Some(SignedMessage(payload, publicKey, sig.value, counter));
    }

    method ProcessNonce(msg: SignedMessage) returns (ok: bool)
      modifies this`nonces
      ensures ok <==> old(LastNonce(nonces, msg.publicKey)) < msg.nonce
      ensures nonces == if ok then old(nonces)[msg.publicKey := msg.nonce] else old(nonces)
    {
      var oldNonce := if msg.publicKey in nonces then nonces[msg.publicKey] else 0;
      if oldNonce >= msg.nonce {
        return false;
      }
      nonces := nonces[msg.publicKey := msg.nonce];
      return true;
    }

    /** Every registration of a client is one notification. */
    method NotifyClients(msg: SignedMessage, eth: EthereumSignature)
      modifies clients
      ensures forall c :: c in clients ==>
                c.View() == old(c.View()).With(msg, eth, Registrations(clients, c, |clients|))
    {
      var cs := clients;
      for k := 0 to |cs|
        invariant clients == cs
        invariant forall c :: c in cs ==> c.View() == old(c.View()).With(msg, eth, Registrations(cs, c, k))
      {
        cs[k].ProcessNewMessage(msg, eth);
        WithOnceMore(old(cs[k].View()), msg, eth, Registrations(cs, cs[k], k));
      }
    }

    method RetrieveUniqueMessages() returns (all: map<Bytes, SignedMessage>)
      requires forall c :: c in clients ==> c.View().Keyed()
      ensures all == MergeAll(Stores(clients)) && KeyedById(all)
    {
      ghost var stores := Stores(clients);
      all := map[];
      for k := 0 to |clients|
        invariant all == MergeAll(stores[..k]) && KeyedById(all)
      {
        var messages := clients[k].AllStoredSignatures();
        all := Absorb(all, messages);
        MergeStep(stores, k);
      }
      assert stores[..|clients|] == stores;
    }

    method ProcessSignMessage(net: Primitives, msg: SignedMessage, ethWhitelist: set<Bytes>)
      modifies clients
      ensures var eth := GetEthereumSignature(net, msg, ethWhitelist);
              forall c :: c in clients ==>
                c.View() == if eth.None? then old(c.View())
                            else old(c.View()).With(msg, eth.value, Registrations(clients, c, |clients|))
    {
      var eth := GetEthereumSignature(net, msg, ethWhitelist);
      if eth.Some? {
        NotifyClients(msg, eth.value);
      }
    }

    /** The part of ProcessReceivedMessage that decides whether the message is dropped. */
    method Admit(net: Primitives, d: Delivery) returns (r: Result<SignedMessage, Error>, blacklisted: set<Bytes>)
      modifies this`nonces
      ensures blacklisted == Blacklisted(net, d)
      ensures r == Verdict(net, old(nonces), d)
      ensures nonces == NoncesAfter(net, old(nonces), d)
    {
      blacklisted := {};
      r := PreProcess(net, d.data);
      if r.Err? {
        if r.error == Unmarshal || r.error == InvalidSignature {
          blacklisted := {d.peer, d.connectedPeer};
        }
        return;
      }
      if r.value.publicKey !in d.whitelist {
        return Err(NotWhitelisted), {};
      }
      var isNew := ProcessNonce(r.value);
      if !isNew {
        return Err(NonceTooLow), {};
      }
      if d.flooded {
        return Err(Flooded), {};
      }
    }

    /** `sent` is what a join request is answered with, message by message; one that cannot be sent stops none of the
        others. */
    method ProcessReceivedMessage(net: Primitives, d: Delivery)
      returns (r: Result<SignedMessage, Error>, blacklisted: set<Bytes>, sent: seq<SignedMessage>)
      requires forall c :: c in clients ==> c.View().Keyed()
      modifies this`nonces, clients
      ensures r == Verdict(net, old(nonces), d)
      ensures nonces == NoncesAfter(net, old(nonces), d)
      ensures var notice := Notice(net, old(nonces), d);
              forall c :: c in clients ==>
                c.View() == if notice.None? then old(c.View())
                            else old(c.View()).With(d.data.value, notice.value, Registrations(clients, c, |clients|))
      ensures r.Ok? && d.topic.JoinTopic? ==> ById(sent) == MergeAll(Stores(clients)) && |sent| == |ById(sent)|
      ensures r.Err? || !d.topic.JoinTopic? ==> sent == []
      ensures blacklisted == Blacklisted(net, d)
    {
      sent := [];
      r, blacklisted := Admit(net, d);
      if r.Err? {
        return;
      }
      match d.topic {
        case JoinTopic => {
          var all := RetrieveUniqueMessages();
          sent := Iterate(all);
        }
        case SignTopic => {
          ProcessSignMessage(net, r.value, d.ethWhitelist);
        }
        case OtherTopic => {
        }
      }
    }
  }
}
