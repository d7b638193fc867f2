/** Moving the safe's funds: the batch that is signed off line, and the quorum check before it is sent. */
module Migration {
  import opened Common

  datatype SignatureInfo = SignatureInfo(address: string, messageHash: string, signature: string)

  datatype Error = QuorumNotReached(minimum: nat, got: nat) | Internal

  /** Address parsing, hex decoding and signature verification. */
  datatype Primitives = Primitives(
    addressOf: string -> Bytes,
    unhex: string -> Option<Bytes>,
    verifies: (string, Bytes, Bytes) -> bool)

  // -------------------------------------------------------- the signatures

  function SameHash(sigs: seq<SignatureInfo>, expected: string): seq<SignatureInfo> {
    if sigs == [] then []
    else
      var init, last := sigs[..|sigs| - 1], sigs[|sigs| - 1];
      SameHash(init, expected) + if last.messageHash == expected then [last] else []
  }

  method GetSameMessageHashSignatures(sigs: seq<SignatureInfo>, expected: string) returns (filtered: seq<SignatureInfo>)
    ensures filtered == SameHash(sigs, expected)
  {
    filtered := [];
    for k := 0 to |sigs|
      invariant filtered == SameHash(sigs[..k], expected)
    {
      assert sigs[..k + 1][..k] == sigs[..k];
      if sigs[k].messageHash != expected {
        continue;
      }
      filtered := filtered + [sigs[k]];
    }
    assert sigs[..|sigs|] == sigs;
  }

  predicate Sound(env: Primitives, s: SignatureInfo) {
    var sig := env.unhex(s.signature);
    sig.Some? && env.verifies(s.messageHash, sig.value, env.addressOf(s.address))
  }

  function Valid(env: Primitives, sigs: seq<SignatureInfo>): seq<SignatureInfo> {
    if sigs == [] then []
    else
      var init, last := sigs[..|sigs| - 1], sigs[|sigs| - 1];
      Valid(env, init) + if Sound(env, last) then [last] else []
  }

  method GetValidSignatures(env: Primitives, sigs: seq<SignatureInfo>) returns (filtered: seq<SignatureInfo>)
    ensures filtered == Valid(env, sigs)
  {
    filtered := [];
    for k := 0 to |sigs|
      invariant filtered == Valid(env, sigs[..k])
    {
      assert sigs[..k + 1][..k] == sigs[..k];
      var sig := env.unhex(sigs[k].signature);
      if sig.None? {
        continue;
      }
      if !env.verifies(sigs[k].messageHash, sig.value, env.addressOf(sigs[k].address)) {
        continue;
      }
      filtered := filtered + [sigs[k]];
    }
    assert sigs[..|sigs|] == sigs;
  }

  /** Both filters together keep exactly the sound signatures on the expected hash. */
  lemma {:induction false} KeptIffSoundAndSameHash(env: Primitives, sigs: seq<SignatureInfo>, expected: string,
                                                   s: SignatureInfo)
    ensures s in Valid(env, SameHash(sigs, expected)) <==> s in sigs && s.messageHash == expected && Sound(env, s)
  {
    InSameHash(sigs, expected, s);
    InValid(env, SameHash(sigs, expected), s);
  }

  lemma {:induction false} InSameHash(sigs: seq<SignatureInfo>, expected: string, s: SignatureInfo)
    ensures s in SameHash(sigs, expected) <==> s in sigs && s.messageHash == expected
  {
    if sigs != [] {
      InSameHash(sigs[..|sigs| - 1], expected, s);
      assert sigs == sigs[..|sigs| - 1] + [sigs[|sigs| - 1]];
    }
  }

  lemma {:induction false} InValid(env: Primitives, sigs: seq<SignatureInfo>, s: SignatureInfo)
    ensures s in Valid(env, sigs) <==> s in sigs && Sound(env, s)
  {
    if sigs != [] {
      InValid(env, sigs[..|sigs| - 1], s);
      assert sigs == sigs[..|sigs| - 1] + [sigs[|sigs| - 1]];
    }
  }

  // ------------------------------------------------------------ the quorum

  method IsWhitelistedRelayer(env: Primitives, s: SignatureInfo, relayers: seq<Bytes>) returns (found: bool)
    ensures found <==> env.addressOf(s.address) in relayers
  {
    var address := env.addressOf(s.address);
    for k := 0 to |relayers|
      invariant address !in relayers[..k]
    {
      if relayers[k] == address {
        return true;
      }
    }
    assert relayers[..|relayers|] == relayers;
    return false;
  }

  /** The whitelisted relayers that supplied one of the signatures. */
  ghost function Signers(env: Primitives, sigs: seq<SignatureInfo>, relayers: seq<Bytes>): set<Bytes> {
    set s | s in sigs && env.addressOf(s.address) in relayers :: env.addressOf(s.address)
  }

  /** The first signature supplied by the relayer with address `a`. */
  function FirstBy(env: Primitives, sigs: seq<SignatureInfo>, a: Bytes): (r: Option<SignatureInfo>)
    ensures r.Some? ==> r.value in sigs && env.addressOf(r.value.address) == a
    ensures r.None? ==> forall s :: s in sigs ==> env.addressOf(s.address) != a
  {
    if sigs == [] then None
    else
      var first := FirstBy(env, sigs[..|sigs| - 1], a);
      var last := sigs[|sigs| - 1];
      if first.Some? then first else if env.addressOf(last.address) == a then Some(last) else None
  }

  /** The first signature of each of these relayers. */
  ghost predicate OnePerSigner(env: Primitives, byRelayer: map<Bytes, SignatureInfo>, sigs: seq<SignatureInfo>,
                               relayers: seq<Bytes>)
  {
    && byRelayer.Keys == Signers(env, sigs, relayers)
    && forall a :: a in byRelayer ==> FirstBy(env, sigs, a) == Some(byRelayer[a])
  }

  lemma SignersStep(env: Primitives, sigs: seq<SignatureInfo>, s: SignatureInfo, relayers: seq<Bytes>)
    ensures Signers(env, sigs + [s], relayers) ==
            Signers(env, sigs, relayers) +
            if env.addressOf(s.address) in relayers then {env.addressOf(s.address)} else {}
  {
  }

  lemma FirstByStep(env: Primitives, sigs: seq<SignatureInfo>, s: SignatureInfo, a: Bytes)
    ensures FirstBy(env, sigs + [s], a) ==
            if FirstBy(env, sigs, a).Some? then FirstBy(env, sigs, a)
            else if env.addressOf(s.address) == a then Some(s) else None
  {
    assert (sigs + [s])[..|sigs|] == sigs;
  }

  lemma SkippedSignature(env: Primitives, byRelayer: map<Bytes, SignatureInfo>, sigs: seq<SignatureInfo>,
                         s: SignatureInfo, relayers: seq<Bytes>)
    requires OnePerSigner(env, byRelayer, sigs, relayers)
    requires env.addressOf(s.address) !in relayers || env.addressOf(s.address) in byRelayer
    ensures OnePerSigner(env, byRelayer, sigs + [s], relayers)
  {
    SignersStep(env, sigs, s, relayers);
    forall a | a in byRelayer ensures FirstBy(env, sigs + [s], a) == Some(byRelayer[a]) {
      FirstByStep(env, sigs, s, a);
    }
  }

  lemma KeptSignature(env: Primitives, byRelayer: map<Bytes, SignatureInfo>, sigs: seq<SignatureInfo>,
                      s: SignatureInfo, relayers: seq<Bytes>)
    requires OnePerSigner(env, byRelayer, sigs, relayers)
    requires env.addressOf(s.address) in relayers && env.addressOf(s.address) !in byRelayer
    ensures OnePerSigner(env, byRelayer[env.addressOf(s.address) := s], sigs + [s], relayers)
  {
    SignersStep(env, sigs, s, relayers);
    var address := env.addressOf(s.address);
    assert FirstBy(env, sigs, address).None?;
    var now := byRelayer[address := s];
    forall a | a in now ensures FirstBy(env, sigs + [s], a) == Some(now[a]) {
      FirstByStep(env, sigs, s, a);
    }
  }

  method FirstPerRelayer(env: Primitives, relayers: seq<Bytes>, sigs: seq<SignatureInfo>)
    returns (byRelayer: map<Bytes, SignatureInfo>)
    ensures OnePerSigner(env, byRelayer, sigs, relayers)
  {
    byRelayer := map[];
    for k := 0 to |sigs|
      invariant OnePerSigner(env, byRelayer, sigs[..k], relayers)
    {
      assert sigs[..k + 1] == sigs[..k] + [sigs[k]];
      var whitelisted := IsWhitelistedRelayer(env, sigs[k], relayers);
      if !whitelisted {
        SkippedSignature(env, byRelayer, sigs[..k], sigs[k], relayers);
        continue;
      }
      var address := env.addressOf(sigs[k].address);
      if address in byRelayer {
        SkippedSignature(env, byRelayer, sigs[..k], sigs[k], relayers);
        continue;
      }
      KeptSignature(env, byRelayer, sigs[..k], sigs[k], relayers);
      byRelayer := byRelayer[address := sigs[k]];
    }
    assert sigs[..|sigs|] == sigs;
  }

  /** `out[k]` is the signature that `who[k]` has in the map. */
  ghost predicate Supplied(env: Primitives, byRelayer: map<Bytes, SignatureInfo>, who: seq<Bytes>, out: seq<Bytes>) {
    && |who| == |out|
    && forall k :: 0 <= k < |who| ==> who[k] in byRelayer && env.unhex(byRelayer[who[k]].signature) == Some(out[k])
  }

  /** The signatures of the map, its relayers met in any order, `who` being the one taken. */
  method DecodeSignatures(env: Primitives, byRelayer: map<Bytes, SignatureInfo>)
    returns (r: Option<seq<Bytes>>, ghost who: seq<Bytes>)
    ensures r.Some? ==> Distinct(who) && Elements(who) == byRelayer.Keys && Supplied(env, byRelayer, who, r.value)
    ensures r.None? ==> exists a :: a in byRelayer && env.unhex(byRelayer[a].signature).None?
  {
    var valid: seq<Bytes> := [];
    who := [];
    var left := byRelayer.Keys;
    while left != {}
      invariant Distinct(who) && Elements(who) + left == byRelayer.Keys && Elements(who) !! left
      invariant Supplied(env, byRelayer, who, valid)
      decreases left
    {
      var address :| address in left;
      assert address !in Elements(who) && address in byRelayer;
      var sig := env.unhex(byRelayer[address].signature);
      if sig.None? {
        return None, who;
      }
      valid, who, left := valid + [sig.value], who + [address], left - {address};
    }
    return Some(valid), who;
  }

  /** checkQuorum. Unless a signature is no hex string there is no internal error. */
  method CheckQuorum(env: Primitives, relayers: seq<Bytes>, quorum: nat, sigs: seq<SignatureInfo>)
    returns (r: Result<seq<Bytes>, Error>, ghost who: seq<Bytes>, ghost byRelayer: map<Bytes, SignatureInfo>)
    ensures OnePerSigner(env, byRelayer, sigs, relayers)
    ensures r.Ok? ==> Distinct(who) && Elements(who) == byRelayer.Keys && Supplied(env, byRelayer, who, r.value)
    ensures r.Ok? ==> quorum <= |r.value|
    ensures r.Err? && r.error.QuorumNotReached? ==>
              r.error == QuorumNotReached(quorum, |Signers(env, sigs, relayers)|) && r.error.got < quorum
    ensures (forall s :: s in sigs ==> env.unhex(s.signature).Some?) ==> r != Err(Internal)
  {
    var whitelistedRelayers := FirstPerRelayer(env, relayers, sigs);
    byRelayer := whitelistedRelayers;
    var valid;
    valid, who := DecodeSignatures(env, whitelistedRelayers);
    if valid.None? {
      return Err(Internal), who, byRelayer;
    }
    DistinctCardinality(who);
    if |valid.value| < quorum {
      return Err(QuorumNotReached(quorum, |valid.value|)), who, byRelayer;
    }
    return Ok(valid.value), who, byRelayer;
  }

  /** The whitelisted relayers with a sound signature on the batch's own hash. */
  ghost function SoundSigners(env: Primitives, sigs: seq<SignatureInfo>, expected: string,
                              relayers: seq<Bytes>): set<Bytes>
  {
    set s | s in sigs && s.messageHash == expected && Sound(env, s) && env.addressOf(s.address) in relayers ::
      env.addressOf(s.address)
  }

  /** checkRelayersSigsAndQuorum: success exactly when enough relayers signed, with one signature of each of them. */
  method CheckRelayersSigsAndQuorum(env: Primitives, sigs: seq<SignatureInfo>, expected: string, relayers: seq<Bytes>,
                                    quorum: nat)
    returns (r: Result<seq<Bytes>, Error>, ghost who: seq<Bytes>)
    ensures r.Ok? <==> quorum <= |SoundSigners(env, sigs, expected, relayers)|
    ensures r.Ok? ==> |r.value| == |who| && Distinct(who)
    ensures r.Ok? ==> Elements(who) == SoundSigners(env, sigs, expected, relayers)
    ensures r.Ok? ==> forall k :: 0 <= k < |who| ==> env.verifies(expected, r.value[k], who[k])
    ensures r.Err? ==> r.error == QuorumNotReached(quorum, |SoundSigners(env, sigs, expected, relayers)|)
  {
    var sameHash := GetSameMessageHashSignatures(sigs, expected);
    var valid := GetValidSignatures(env, sameHash);
    forall s ensures s in valid <==> s in sigs && s.messageHash == expected && Sound(env, s) {
      KeptIffSoundAndSameHash(env, sigs, expected, s);
    }
    assert Signers(env, valid, relayers) == SoundSigners(env, sigs, expected, relayers);
    ghost var byRelayer;
    r, who, byRelayer := CheckQuorum(env, relayers, quorum, valid);
    if r.Ok? {
      DistinctCardinality(who);
    }
  }

  // ------------------------------------------------------------- the batch

  datatype DepositInfo = DepositInfo(depositNonce: nat, contractAddress: Bytes, amount: int)

  datatype BatchInfo = BatchInfo(newSafe: string, batchId: nat, deposits: seq<DepositInfo>)

  /** The argument lists of a transfer. */
  datatype ArgLists = ArgLists(tokens: seq<Bytes>, recipients: seq<Bytes>, amounts: seq<int>, nonces: seq<nat>)

  /** The lists say the same as the batch, deposit by deposit. */
  ghost predicate Lists(args: ArgLists, env: Primitives, batch: BatchInfo) {
    && |args.tokens| == |args.recipients| == |args.amounts| == |args.nonces| == |batch.deposits|
    && forall i :: 0 <= i < |batch.deposits| ==>
         && DepositInfo(args.nonces[i], args.tokens[i], args.amounts[i]) == batch.deposits[i]
         && args.recipients[i] == env.addressOf(batch.newSafe)
  }

  /** The lists that are hashed when the batch is created, parsing the address for every deposit. */
  method HashedArguments(env: Primitives, batch: BatchInfo) returns (args: ArgLists)
    ensures Lists(args, env, batch)
  {
    var tokens, recipients, amounts, nonces := [], [], [], [];
    for k := 0 to |batch.deposits|
      invariant Lists(ArgLists(tokens, recipients, amounts, nonces), env, batch.(deposits := batch.deposits[..k]))
    {
      var deposit := batch.deposits[k];
      tokens := tokens + [deposit.contractAddress];
      recipients := recipients + [env.addressOf(batch.newSafe)];
      amounts := amounts + [deposit.amount];
      nonces := nonces + [deposit.depositNonce];
    }
    args := ArgLists(tokens, recipients, amounts, nonces);
    assert batch.(deposits := batch.deposits[..|batch.deposits|]) == batch;
  }

  /** The lists that are sent when the batch is executed, parsing the address once. */
  method ExtractArgumentsFromBatch(env: Primitives, batch: BatchInfo) returns (args: ArgLists, batchNonce: nat)
    ensures Lists(args, env, batch) && batchNonce == batch.batchId
  {
    var tokens, recipients, amounts, nonces := [], [], [], [];
    var newSafeContractAddress := env.addressOf(batch.newSafe);
    for k := 0 to |batch.deposits|
      invariant Lists(ArgLists(tokens, recipients, amounts, nonces), env, batch.(deposits := batch.deposits[..k]))
    {
      var deposit := batch.deposits[k];
      tokens := tokens + [deposit.contractAddress];
      recipients := recipients + [newSafeContractAddress];
      amounts := amounts + [deposit.amount];
      nonces := nonces + [deposit.depositNonce];
    }
    assert batch.(deposits := batch.deposits[..|batch.deposits|]) == batch;
    return ArgLists(tokens, recipients, amounts, nonces), batch.batchId;
  }

  /** What is hashed is what is sent: the lists are determined by the batch, and the batch by the lists. */
  lemma HashedIsSent(env: Primitives, batch: BatchInfo, batch': BatchInfo, args: ArgLists, args': ArgLists)
    requires Lists(args, env, batch) && Lists(args', env, batch')
    ensures batch == batch' ==> args == args'
    ensures args == args' ==> batch.deposits == batch'.deposits
  {
    if args == args' {
      forall i | 0 <= i < |batch.deposits| ensures batch.deposits[i] == batch'.deposits[i] {
        assert DepositInfo(args.nonces[i], args.tokens[i], args.amounts[i]) == batch.deposits[i];
      }
    }
  }

  function Positive(deposits: seq<DepositInfo>): seq<DepositInfo> {
    if deposits == [] then []
    else
      var init, last := deposits[..|deposits| - 1], deposits[|deposits| - 1];
      Positive(init) + if last.amount > 0 then [last] else []
  }

  function Total(deposits: seq<DepositInfo>): int {
    if deposits == [] then 0 else Total(deposits[..|deposits| - 1]) + deposits[|deposits| - 1].amount
  }

  /** The deposits of the new batch: those with something to move, in their order. */
  method AssembleDeposits(deposits: seq<DepositInfo>) returns (kept: seq<DepositInfo>)
    ensures kept == Positive(deposits)
  {
    kept := [];
    for k := 0 to |deposits|
      invariant kept == Positive(deposits[..k])
    {
      assert deposits[..k + 1][..k] == deposits[..k];
      if deposits[k].amount <= 0 {
        continue;
      }
      kept := kept + [deposits[k]];
    }
    assert deposits[..|deposits|] == deposits;
  }

  ghost predicate NoncesGrow(deposits: seq<DepositInfo>) {
    forall i, j :: 0 <= i < j < |deposits| ==> deposits[i].depositNonce < deposits[j].depositNonce
  }

  lemma {:induction false} InPositive(deposits: seq<DepositInfo>, d: DepositInfo)
    ensures d in Positive(deposits) <==> d in deposits && d.amount > 0
  {
    if deposits != [] {
      InPositive(deposits[..|deposits| - 1], d);
      assert deposits == deposits[..|deposits| - 1] + [deposits[|deposits| - 1]];
    }
  }

  lemma {:induction false} PositiveNoncesGrow(deposits: seq<DepositInfo>)
    requires NoncesGrow(deposits)
    ensures NoncesGrow(Positive(deposits))
  {
    if deposits != [] {
      var init, last := deposits[..|deposits| - 1], deposits[|deposits| - 1];
      PositiveNoncesGrow(init);
      forall i | 0 <= i < |Positive(init)| ensures Positive(init)[i].depositNonce < last.depositNonce {
        InPositive(init, Positive(init)[i]);
      }
    }
  }

  /** Leaving out empty balances moves the whole of the funds. */
  lemma {:induction false} AssemblyConservesFunds(deposits: seq<DepositInfo>)
    requires forall i :: 0 <= i < |deposits| ==> deposits[i].amount >= 0
    ensures Total(Positive(deposits)) == Total(deposits)
  {
    if deposits != [] {
      var init, last := deposits[..|deposits| - 1], deposits[|deposits| - 1];
      AssemblyConservesFunds(init);
      assert (Positive(init) + [last])[..|Positive(init)|] == Positive(init) == Positive(init) + [];
    }
  }
}
