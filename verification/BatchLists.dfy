/** A batch as parallel lists: what the token check, the message hash and the Ethereum transfer work on. */
module BatchLists {
  import opened Common
  import opened Batches

  const ADDRESS_LENGTH := 20

  datatype Direction = FromMultiversX | ToMultiversX | OtherDirection(name: string)

  datatype ArgLists = ArgLists(
    ethTokens: seq<Bytes>, recipients: seq<Bytes>, mvxTokens: seq<Bytes>, amounts: seq<nat>, nonces: seq<u64>,
    direction: Direction)

  /** common.BytesToAddress: the last twenty bytes, padded with zeros in front. */
  function ToAddress(b: Bytes): (r: Bytes)
    ensures |r| == ADDRESS_LENGTH
    ensures |b| == ADDRESS_LENGTH ==> r == b
  {
    if |b| >= ADDRESS_LENGTH then b[|b| - ADDRESS_LENGTH..] else seq(ADDRESS_LENGTH - |b|, _ => 0) + b
  }

  /** The Ethereum token of a deposit is what arrives from MultiversX, and what leaves towards it. */
  function EthTokenOf(d: Deposit, direction: Direction): Bytes {
    if direction.FromMultiversX? then d.destinationToken else d.sourceToken
  }

  function MvxTokenOf(d: Deposit, direction: Direction): Bytes {
    if direction.FromMultiversX? then d.sourceToken else d.destinationToken
  }

  /** The lists say the same as the deposits, one by one. */
  function ListsOf(ds: seq<Deposit>, direction: Direction): ArgLists {
    ArgLists(
      seq(|ds|, i requires 0 <= i < |ds| => ToAddress(EthTokenOf(ds[i], direction))),
      seq(|ds|, i requires 0 <= i < |ds| => ToAddress(ds[i].to)),
      seq(|ds|, i requires 0 <= i < |ds| => MvxTokenOf(ds[i], direction)),
      seq(|ds|, i requires 0 <= i < |ds| => ds[i].amount),
      seq(|ds|, i requires 0 <= i < |ds| => ds[i].nonce),
      direction)
  }

  method ExtractListMvxToEth(ds: seq<Deposit>) returns (arg: ArgLists)
    ensures arg == ListsOf(ds, FromMultiversX)
  {
    arg := ArgLists([], [], [], [], [], FromMultiversX);
    for k := 0 to |ds|
      invariant arg == ListsOf(ds[..k], FromMultiversX)
    {
      var dt := ds[k];
      arg := arg.(recipients := arg.recipients + [ToAddress(dt.to)]);
      arg := arg.(ethTokens := arg.ethTokens + [ToAddress(dt.destinationToken)]);
      arg := arg.(amounts := arg.amounts + [dt.amount], nonces := arg.nonces + [dt.nonce]);
      arg := arg.(mvxTokens := arg.mvxTokens + [dt.sourceToken]);
    }
    assert ds[..|ds|] == ds;
  }

  method ExtractListEthToMvx(ds: seq<Deposit>) returns (arg: ArgLists)
    ensures arg == ListsOf(ds, ToMultiversX)
  {
    arg := ArgLists([], [], [], [], [], ToMultiversX);
    for k := 0 to |ds|
      invariant arg == ListsOf(ds[..k], ToMultiversX)
    {
      var dt := ds[k];
      arg := arg.(recipients := arg.recipients + [ToAddress(dt.to)]);
      arg := arg.(ethTokens := arg.ethTokens + [ToAddress(dt.sourceToken)]);
      arg := arg.(amounts := arg.amounts + [dt.amount], nonces := arg.nonces + [dt.nonce]);
      arg := arg.(mvxTokens := arg.mvxTokens + [dt.destinationToken]);
    }
    assert ds[..|ds|] == ds;
  }
}
