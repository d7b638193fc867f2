/** The store of gathered signatures and what is drawn from it for an Ethereum transfer. */
module Signatures {
  import opened Common

  datatype SignedMessage = SignedMessage(payload: Bytes, publicKey: Bytes, signature: Bytes, nonce: u64)

  datatype EthereumSignature = EthereumSignature(signature: Bytes, messageHash: Bytes)

  /** The key under which a message is stored: its sender and payload, not its nonce. */
  function UniqueId(msg: SignedMessage): Bytes {
    msg.publicKey + msg.payload
  }

  /** What a holder stores. */
  datatype Store = Store(signedMessages: map<Bytes, SignedMessage>, ethMessages: seq<EthereumSignature>) {
    predicate Keyed() {
      forall id :: id in signedMessages ==> UniqueId(signedMessages[id]) == id
    }

    function With(msg: SignedMessage, ethMsg: EthereumSignature, times: nat): (s: Store)
      ensures Keyed() ==> s.Keyed()
      ensures |s.ethMessages| == |ethMessages| + times
    {
      if times == 0 then this
      else
        var s := With(msg, ethMsg, times - 1);
        Store(s.signedMessages[UniqueId(msg) := msg], s.ethMessages + [ethMsg])
    }

    /** The signatures gathered for a message hash, equal byte strings counted once. */
    ghost function For(hash: Bytes): set<Bytes> {
      set e | e in ethMessages && e.messageHash == hash :: e.signature
    }
  }

  /** The messages of a list by their keys, the last one winning. */
  function ById(msgs: seq<SignedMessage>): map<Bytes, SignedMessage> {
    if msgs == [] then map[]
    else
      var last := msgs[|msgs| - 1];
      ById(msgs[..|msgs| - 1])[UniqueId(last) := last]
  }

  lemma ByIdStep(msgs: seq<SignedMessage>, msg: SignedMessage)
    ensures ById(msgs + [msg]) == ById(msgs)[UniqueId(msg) := msg]
  {
    assert (msgs + [msg])[..|msgs|] == msgs;
  }

  /** Go's iteration over a map: its values, one per key, in some order. */
  method Iterate(m: map<Bytes, SignedMessage>) returns (msgs: seq<SignedMessage>)
    requires forall id :: id in m ==> UniqueId(m[id]) == id
    ensures ById(msgs) == m && |msgs| == |m|
  {
    msgs := [];
    var left := m.Keys;
    while left != {}
      invariant left <= m.Keys && |msgs| + |left| == |m.Keys|
      invariant ById(msgs) == map id | id in m && id !in left :: m[id]
      decreases left
    {
      var id :| id in left;
      ByIdStep(msgs, m[id]);
      msgs, left := msgs + [m[id]], left - {id};
    }
    assert ById(msgs) == m;
  }

  class SignaturesHolder {
    var signedMessages: map<Bytes, SignedMessage>
    var ethMessages: seq<EthereumSignature>

    ghost function View(): Store
      reads this
    {
      Store(signedMessages, ethMessages)
    }

    constructor ()
      ensures View() == Store(map[], [])
    {
      signedMessages, ethMessages := map[], [];
    }

    method ProcessNewMessage(msg: SignedMessage, ethMsg: EthereumSignature)
      modifies this
      ensures View() == old(View()).With(msg, ethMsg, 1)
    {
      signedMessages := signedMessages[UniqueId(msg) := msg];
      ethMessages := ethMessages + [ethMsg];
      assert View() == old(View()).With(msg, ethMsg, 0 + 1);
    }

    method AllStoredSignatures() returns (result: seq<SignedMessage>)
      requires View().Keyed()
      ensures ById(result) == signedMessages && |result| == |signedMessages|
    {
      result := Iterate(signedMessages);
    }

    /** The signatures for a hash, each once, in some order. */
    method Signatures(hash: Bytes) returns (result: seq<Bytes>)
      ensures Elements(result) == View().For(hash) && Distinct(result)
    {
      var unique: set<Bytes> := {};
      for k := 0 to |ethMessages|
        invariant unique == set e | e in ethMessages[..k] && e.messageHash == hash :: e.signature
      {
        assert ethMessages[..k + 1] == ethMessages[..k] + [ethMessages[k]];
        if ethMessages[k].messageHash == hash {
          unique := unique + {ethMessages[k].signature};
        }
      }
      assert ethMessages[..|ethMessages|] == ethMessages;
      result := [];
      var left := unique;
      while left != {}
        invariant Elements(result) + left == unique && Elements(result) !! left
        invariant Distinct(result)
        decreases left
      {
        var sig :| sig in left;
        assert sig !in result;
        result, left := result + [sig], left - {sig};
      }
    }

    method ClearStoredSignatures()
      modifies this
      ensures View() == Store(map[], [])
    {
      signedMessages, ethMessages := map[], [];
    }

    /** The signatures sent with an Ethereum transfer: as many as the quorum, pairwise different, or an error carrying
        how many there were. */
    method SelectForTransfer(hash: Bytes, quorum: nat) returns (r: Result<seq<Bytes>, nat>)
      ensures r.Ok? <==> quorum <= |View().For(hash)|
      ensures r.Ok? ==> |r.value| == quorum && Distinct(r.value) && Elements(r.value) <= View().For(hash)
      ensures r.Err? ==> r.error == |View().For(hash)|
    {
      var signatures := Signatures(hash);
      DistinctCardinality(signatures);
      if |signatures| < quorum {
        return Err(|signatures|);
      }
      if |signatures| > quorum {
        signatures := signatures[..quorum];
      }
      return Ok(signatures);
    }

    /** IsQuorumReached: an error for a quorum below one. */
    method IsQuorumReached(hash: Bytes, quorum: nat) returns (r: Result<bool, ()>)
      ensures r == if quorum < 1 then Err(()) else Ok(quorum <= |View().For(hash)|)
    {
      var signatures := Signatures(hash);
      DistinctCardinality(signatures);
      if quorum < 1 {
        return Err(());
      }
      return Ok(|signatures| >= quorum);
    }
  }
}
