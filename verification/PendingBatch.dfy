/** Reading the flat list of byte strings with which the safe contract describes a batch. */
module PendingBatch {
  import opened Common
  import BE = BigEndian
  import opened Batches

  datatype Error =
    | InvalidNumberOfArguments(count: nat)
    | BadBatchId
    | BadDepositNonce(index: nat)
    | TokenNotConverted(index: nat)

  /** Answers of the tokens mapper for one batch: a token converts or its query fails. */
  type Mapper = Bytes -> Option<Bytes>

  const NUM_FIELDS := 6

  // -------------------------------------------------------- specification

  function ParseUint64(b: Bytes): Option<u64> {
    if BE.Decode(b) < U64 then Some(BE.Decode(b)) else None
  }

  /** The deposit in the six fields from `i` on, converting its token directly.
      The block nonce in the first of them is ignored. */
  function ParseDeposit(f: seq<Bytes>, i: nat, index: nat, convert: Mapper): Result<Deposit, Error>
    requires i + NUM_FIELDS <= |f|
  {
    match ParseUint64(f[i + 1])
    case None => Err(BadDepositNonce(index))
    case Some(nonce) =>
      match convert(f[i + 4])
      case None => Err(TokenNotConverted(index))
      case Some(destination) =>
        Ok(Deposit(nonce, f[i + 2], f[i + 3], f[i + 4], destination, BE.Decode(f[i + 5]), []))
  }

  /** The deposits read so far, followed by those in the groups of fields from `i` on. */
  function ParseFrom(f: seq<Bytes>, i: nat, done: seq<Deposit>, convert: Mapper): Result<seq<Deposit>, Error>
    decreases |f| - i
  {
    if i + NUM_FIELDS > |f| then Ok(done)
    else
      var d :- ParseDeposit(f, i, |done|, convert);
      ParseFrom(f, i + NUM_FIELDS, done + [d], convert)
  }

  function ParseBatch(response: seq<Bytes>, convert: Mapper): Result<Batch, Error> {
    if |response| <= 1 || (|response| - 1) % NUM_FIELDS != 0 then Err(InvalidNumberOfArguments(|response|))
    else
      match ParseUint64(response[0])
      case None => Err(BadBatchId)
      case Some(id) =>
        var ds :- ParseFrom(response, 1, [], convert);
        Ok(Batch(id, ds, seq(|ds|, _ => 0)))
  }

  function SourceTokens(ds: seq<Deposit>): set<Bytes> {
    set d | d in ds :: d.sourceToken
  }

  // ------------------------------------------------------- implementation

  ghost predicate CacheValid(cache: map<Bytes, Bytes>, convert: Mapper) {
    forall t :: t in cache ==> convert(t) == Some(cache[t])
  }

  /** The loop body of createPendingBatchFromResponse: one deposit, its token taken from the cache if it is there. */
  method ReadDeposit(f: seq<Bytes>, i: nat, index: nat, convert: Mapper, cachedTokens: map<Bytes, Bytes>)
    returns (r: Result<Deposit, Error>, updated: map<Bytes, Bytes>)
    requires i + NUM_FIELDS <= |f| && CacheValid(cachedTokens, convert)
    ensures r == ParseDeposit(f, i, index, convert)
    ensures CacheValid(updated, convert)
    ensures r.Ok? ==> updated.Keys == cachedTokens.Keys + {r.value.sourceToken}
  {
    updated := cachedTokens;
    var nonce := ParseUint64(f[i + 1]);
    if nonce.None? {
      return Err(BadDepositNonce(index)), updated;
    }
    var token := f[i + 4];
    if token !in cachedTokens {
      var converted := convert(token);
      if converted.None? {
        return Err(TokenNotConverted(index)), updated;
      }
      updated := updated[token := converted.value];
    }
    r := Ok(Deposit(nonce.value, f[i + 2], f[i + 3], token, updated[token], BE.Decode(f[i + 5]), []));
  }

  lemma ParseStep(f: seq<Bytes>, i: nat, done: seq<Deposit>, convert: Mapper, d: Deposit)
    requires i + NUM_FIELDS <= |f| && ParseDeposit(f, i, |done|, convert) == Ok(d)
    ensures ParseFrom(f, i, done, convert) == ParseFrom(f, i + NUM_FIELDS, done + [d], convert)
  {
  }

  /** The loop over the groups of fields, `groups` of them, and the token cache it leaves. */
  method ReadDeposits(response: seq<Bytes>, convert: Mapper, ghost groups: nat)
    returns (r: Result<seq<Deposit>, Error>, cachedTokens: map<Bytes, Bytes>)
    requires |response| == 1 + NUM_FIELDS * groups
    ensures r == ParseFrom(response, 1, [], convert)
    ensures r.Ok? ==> cachedTokens.Keys == SourceTokens(r.value)
  {
    var deposits: seq<Deposit> := [];
    cachedTokens := map[];
    var i := 1;
    ghost var left := groups;
    ghost var whole := ParseFrom(response, 1, [], convert);
    while i < |response|
      invariant |response| == i + NUM_FIELDS * left
      invariant whole == ParseFrom(response, i, deposits, convert)
      invariant CacheValid(cachedTokens, convert)
      invariant cachedTokens.Keys == SourceTokens(deposits)
    {
      var deposit;
      deposit, cachedTokens := ReadDeposit(response, i, |deposits|, convert, cachedTokens);
      if deposit.Err? {
        return Err(deposit.error), cachedTokens;
      }
      ParseStep(response, i, deposits, convert, deposit.value);
      TokensStep(deposits, deposit.value);
      deposits := deposits + [deposit.value];
      i, left := i + NUM_FIELDS, left - 1;
    }
    r := Ok(deposits);
  }

  lemma WholeGroups(n: nat) returns (groups: nat)
    requires n % NUM_FIELDS == 0
    ensures n == NUM_FIELDS * groups
  {
    groups := n / NUM_FIELDS;
  }

  /** createPendingBatchFromResponse: the cached conversion agrees with converting every deposit,
      and each distinct token of an accepted batch was converted once. */
  method CreateFromResponse(response: seq<Bytes>, convert: Mapper)
    returns (r: Result<Batch, Error>, conversions: nat)
    ensures r == ParseBatch(response, convert)
    ensures r.Ok? ==> conversions == |SourceTokens(r.value.deposits)|
  {
    var dataLen := |response|;
    var haveCorrectNumberOfArgs := (dataLen - 1) % NUM_FIELDS == 0 && dataLen > 1;
    if !haveCorrectNumberOfArgs {
      return Err(InvalidNumberOfArguments(dataLen)), 0;
    }
    var id := ParseUint64(response[0]);
    if id.None? {
      return Err(BadBatchId), 0;
    }
    ghost var groups := WholeGroups(dataLen - 1);
    var deposits, cachedTokens := ReadDeposits(response, convert, groups);
    conversions := |cachedTokens|;
    if deposits.Err? {
      return Err(deposits.error), conversions;
    }
    r := Ok(Batch(id.value, deposits.value, seq(|deposits.value|, _ => 0)));
  }

  lemma TokensStep(done: seq<Deposit>, d: Deposit)
    ensures SourceTokens(done + [d]) == SourceTokens(done) + {d.sourceToken}
  {
    assert forall x :: x in done + [d] <==> x in done || x == d;
  }

  // ------------------------------------------------------------- theorems

  ghost predicate FetchedWith(d: Deposit, convert: Mapper) {
    d.data == [] && convert(d.sourceToken) == Some(d.destinationToken)
  }

  /** The six fields from `i` on describe `d`; how its numbers are padded does not matter. */
  ghost predicate Describes(f: seq<Bytes>, i: nat, d: Deposit) {
    && i + NUM_FIELDS <= |f|
    && BE.Decode(f[i + 1]) == d.nonce
    && f[i + 2] == d.from
    && f[i + 3] == d.to
    && f[i + 4] == d.sourceToken
    && BE.Decode(f[i + 5]) == d.amount
  }

  /** The fields from 1 on describe the deposits one after the other. */
  ghost predicate DescribesAll(f: seq<Bytes>, ds: seq<Deposit>, convert: Mapper) {
    && |f| == 1 + NUM_FIELDS * |ds|
    && forall k :: 0 <= k < |ds| ==> Describes(f, 1 + NUM_FIELDS * k, ds[k]) && FetchedWith(ds[k], convert)
  }

  lemma {:induction false} ParseReadsDescription(f: seq<Bytes>, ds: seq<Deposit>, k: nat, convert: Mapper)
    requires DescribesAll(f, ds, convert) && k <= |ds|
    ensures ParseFrom(f, 1 + NUM_FIELDS * k, ds[..k], convert) == Ok(ds)
    decreases |ds| - k
  {
    if k == |ds| {
      assert ds[..k] == ds;
    } else {
      ParseReadsDescription(f, ds, k + 1, convert);
      assert Describes(f, 1 + NUM_FIELDS * k, ds[k]) && FetchedWith(ds[k], convert);
      assert ParseDeposit(f, 1 + NUM_FIELDS * k, k, convert) == Ok(ds[k]);
      assert ds[..k + 1] == ds[..k] + [ds[k]];
    }
  }

  lemma {:induction false} ParseYieldsDescription(f: seq<Bytes>, i: nat, done: seq<Deposit>, convert: Mapper)
    requires i == 1 + NUM_FIELDS * |done| <= |f| && (|f| - 1) % NUM_FIELDS == 0
    requires forall k :: 0 <= k < |done| ==> Describes(f, 1 + NUM_FIELDS * k, done[k]) && FetchedWith(done[k], convert)
    requires ParseFrom(f, i, done, convert).Ok?
    ensures DescribesAll(f, ParseFrom(f, i, done, convert).value, convert)
    decreases |f| - i
  {
    if i + NUM_FIELDS <= |f| {
      var d := ParseDeposit(f, i, |done|, convert).value;
      ParseYieldsDescription(f, i + NUM_FIELDS, done + [d], convert);
    }
  }

  /** A response parses to a batch exactly when it consists of a readable batch ID and the descriptions of the
      batch's deposits, of which there is at least one. */
  lemma ParseIffDescribed(response: seq<Bytes>, b: Batch, convert: Mapper)
    ensures ParseBatch(response, convert) == Ok(b) <==>
            && b.deposits != []
            && DescribesAll(response, b.deposits, convert)
            && BE.Decode(response[0]) == b.id
            && b.statuses == seq(|b.deposits|, _ => 0)
  {
    if b.deposits != [] && DescribesAll(response, b.deposits, convert) {
      ParseReadsDescription(response, b.deposits, 0, convert);
    }
    if ParseBatch(response, convert) == Ok(b) {
      ParseYieldsDescription(response, 1, [], convert);
    }
  }

  /** The contract's own flat form of a deposit and of a batch. */
  function SerializeDeposit(d: Deposit, blockNonce: Bytes): seq<Bytes> {
    [blockNonce, BE.Minimal(d.nonce), d.from, d.to, d.sourceToken, BE.Minimal(d.amount)]
  }

  function Serialize(id: u64, ds: seq<Deposit>, blockNonces: seq<Bytes>): seq<Bytes>
    requires |blockNonces| == |ds|
  {
    if ds == [] then [BE.Minimal(id)]
    else
      var n := |ds| - 1;
      Serialize(id, ds[..n], blockNonces[..n]) + SerializeDeposit(ds[n], blockNonces[n])
  }

  lemma DescribesStays(f: seq<Bytes>, more: seq<Bytes>, i: nat, d: Deposit)
    requires Describes(f, i, d)
    ensures Describes(f + more, i, d)
  {
  }

  lemma {:induction false} SerializeDescribes(id: u64, ds: seq<Deposit>, blockNonces: seq<Bytes>)
    requires |blockNonces| == |ds|
    ensures var f := Serialize(id, ds, blockNonces);
            && |f| == 1 + NUM_FIELDS * |ds|
            && f[0] == BE.Minimal(id)
            && forall k :: 0 <= k < |ds| ==> Describes(f, 1 + NUM_FIELDS * k, ds[k])
  {
    if ds != [] {
      var n := |ds| - 1;
      SerializeDescribes(id, ds[..n], blockNonces[..n]);
      BE.DecodeMinimal(ds[n].nonce);
      BE.DecodeMinimal(ds[n].amount);
      var g, last := Serialize(id, ds[..n], blockNonces[..n]), SerializeDeposit(ds[n], blockNonces[n]);
      forall k | 0 <= k < n ensures Describes(g + last, 1 + NUM_FIELDS * k, ds[k]) {
        assert Describes(g, 1 + NUM_FIELDS * k, ds[..n][k]);
        DescribesStays(g, last, 1 + NUM_FIELDS * k, ds[k]);
      }
    }
  }

  /** Parsing inverts the contract's flat form for every batch that has deposits. */
  lemma ParseUndoesSerialize(b: Batch, blockNonces: seq<Bytes>, convert: Mapper)
    requires |blockNonces| == |b.deposits|
    requires forall d :: d in b.deposits ==> FetchedWith(d, convert)
    requires b.statuses == seq(|b.deposits|, _ => 0)
    ensures ParseBatch(Serialize(b.id, b.deposits, blockNonces), convert) ==
            if b.deposits == [] then Err(InvalidNumberOfArguments(1)) else Ok(b)
  {
    SerializeDescribes(b.id, b.deposits, blockNonces);
    BE.DecodeMinimal(b.id);
    ParseIffDescribed(Serialize(b.id, b.deposits, blockNonces), b, convert);
  }
}
