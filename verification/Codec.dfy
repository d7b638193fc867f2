/**
 Decoding of the call data that crosses the bridge, and the encoders it undoes.
 Go strings are byte strings, so a `string` field is `Bytes` here.
 */
module Codec {
  import opened Common
  import BE = BigEndian

  datatype Error =
    | BufferTooShortForLength
    | BufferTooShortForString
    | BufferTooShortForBigInt
    | BufferTooShortForUint64
    | BufferTooShortForUint32
    | BufferTooShortForEthAddress
    | BufferTooShortForMvxAddress
    | BufferTooShortForMarker
    | BufferLenMismatch
    | UnexpectedMarker(marker: byte)

  const MISSING_DATA_MARKER: byte := 0
  const DATA_PRESENT_MARKER: byte := 1
  const LEN_ETH_ADDRESS := 20
  const LEN_MVX_ADDRESS := 32

  datatype CallData = CallData(function_: Bytes, gasLimit: u64, arguments: seq<Bytes>)

  datatype ProxyCallData = ProxyCallData(
    from: Bytes, to: Bytes, token: Bytes, amount: nat, nonce: u64, rawCallData: Bytes)

  // ---------------------------------------------------------------- decoders

  function ExtractUint32(buff: Bytes): Result<(Bytes, nat), Error> {
    if |buff| < 4 then Err(BufferTooShortForUint32)
    else Ok((buff[4..], BE.Decode(buff[..4])))
  }

  function ExtractUint64(buff: Bytes): (r: Result<(Bytes, nat), Error>)
    ensures r.Ok? ==> r.value.1 < U64
  {
    if |buff| < 8 then Err(BufferTooShortForUint64)
    else
      BE.DecodeBound(buff[..8]);
      BE.Widths();
      Ok((buff[8..], BE.Decode(buff[..8])))
  }

  /** The shared shape of ExtractString and extractBigInt: a length and that many bytes. */
  function ExtractField(buff: Bytes, tooShort: Error): Result<(Bytes, Bytes), Error> {
    if |buff| < 4 then Err(BufferTooShortForLength)
    else
      var length := BE.Decode(buff[..4]);
      var rest := buff[4..];
      if |rest| < length then Err(tooShort)
      else Ok((rest[length..], rest[..length]))
  }

  function ExtractString(buff: Bytes): Result<(Bytes, Bytes), Error> {
    ExtractField(buff, BufferTooShortForString)
  }

  function ExtractBigInt(buff: Bytes): Result<(Bytes, nat), Error> {
    var (rest, value) :- ExtractField(buff, BufferTooShortForBigInt);
    Ok((rest, BE.Decode(value)))
  }

  function DecodeProxyCallData(buff: Bytes): Result<ProxyCallData, Error> {
    if |buff| < LEN_ETH_ADDRESS then Err(BufferTooShortForEthAddress)
    else
      var from, afterFrom := buff[..LEN_ETH_ADDRESS], buff[LEN_ETH_ADDRESS..];
      if |afterFrom| < LEN_MVX_ADDRESS then Err(BufferTooShortForMvxAddress)
      else
        DecodeTail(from, afterFrom[..LEN_MVX_ADDRESS], afterFrom[LEN_MVX_ADDRESS..])
  }

  /** The fields after the two addresses, */
  function DecodeTail(from: Bytes, to: Bytes, afterTo: Bytes): Result<ProxyCallData, Error> {
    var (afterToken, token) :- ExtractString(afterTo);
    DecodeAmount(from, to, token, afterToken)
  }

  /** after the token, */
  function DecodeAmount(from: Bytes, to: Bytes, token: Bytes, afterToken: Bytes): Result<ProxyCallData, Error> {
    var (afterAmount, amount) :- ExtractBigInt(afterToken);
    DecodeNonce(from, to, token, amount, afterAmount)
  }

  /** and after the amount. */
  function DecodeNonce(from: Bytes, to: Bytes, token: Bytes, amount: nat,
                       afterAmount: Bytes): Result<ProxyCallData, Error>
  {
    var (raw, nonce) :- ExtractUint64(afterAmount);
    Ok(ProxyCallData(from, to, token, amount, nonce, raw))
  }

  /** partiallyDecodeCallData, reduced to the gas limit its only caller keeps. */
  function PartiallyDecodeCallData(buff: Bytes): Result<u64, Error> {
    var (body, numChars) :- ExtractUint32(buff);
    if numChars != |body| then Err(BufferLenMismatch)
    else
      var (afterFunction, _) :- ExtractString(body);
      var (_, gasLimit) :- ExtractUint64(afterFunction);
      Ok(gasLimit)
  }

  function ExtractGasLimit(buff: Bytes): Result<u64, Error> {
    if |buff| == 0 then Err(BufferTooShortForMarker)
    else if buff[0] != DATA_PRESENT_MARKER then Err(UnexpectedMarker(buff[0]))
    else PartiallyDecodeCallData(buff[1..])
  }

  // ---------------------------------------------------------------- encoders

  function EncodeField(s: Bytes): Bytes {
    BE.Encode(|s|, 4) + s
  }

  /** The header of a proxy call; `amountBytes` is any big-endian form of the amount. */
  function EncodeHeader(v: ProxyCallData, amountBytes: Bytes): Bytes {
    v.from + v.to + EncodeField(v.token) + EncodeField(amountBytes) + BE.Encode(v.nonce, 8)
  }

  function EncodeArgs(args: seq<Bytes>): Bytes {
    if args == [] then [] else EncodeField(args[0]) + EncodeArgs(args[1..])
  }

  function EncodeCallDataStrict(c: CallData): Bytes {
    EncodeField(c.function_) + BE.Encode(c.gasLimit, 8) +
    if c.arguments == [] then [MISSING_DATA_MARKER]
    else [DATA_PRESENT_MARKER] + BE.Encode(|c.arguments|, 4) + EncodeArgs(c.arguments)
  }

  ghost predicate Encodable(v: ProxyCallData, amountBytes: Bytes) {
    && |v.from| == LEN_ETH_ADDRESS
    && |v.to| == LEN_MVX_ADDRESS
    && |v.token| < U32
    && |amountBytes| < U32
    && BE.Decode(amountBytes) == v.amount
  }

  // ------------------------------------------------------------------ fields

  /** What a field extractor sees when the encoded field is cut after `k` bytes. */
  lemma ExtractFieldCut(s: Bytes, rest: Bytes, k: nat, tooShort: Error)
    requires |s| < U32
    requires k <= |EncodeField(s) + rest|
    ensures ExtractField((EncodeField(s) + rest)[..k], tooShort) ==
            if k < 4 then Err(BufferTooShortForLength)
            else if k < 4 + |s| then Err(tooShort)
            else Ok((rest[..k - 4 - |s|], s))
  {
    var whole := EncodeField(s) + rest;
    var cut := whole[..k];
    if k >= 4 {
      assert cut[..4] == BE.Encode(|s|, 4);
      BE.RoundTrip32(|s|);
      if k >= 4 + |s| {
        assert EncodeField(s)[4..] == s;
        assert cut == EncodeField(s) + rest[..k - 4 - |s|];
        assert cut[4..] == s + rest[..k - 4 - |s|];
      }
    }
  }

  lemma ExtractFieldWhole(s: Bytes, rest: Bytes, tooShort: Error)
    requires |s| < U32
    ensures ExtractField(EncodeField(s) + rest, tooShort) == Ok((rest, s))
  {
    var whole := EncodeField(s) + rest;
    ExtractFieldCut(s, rest, |whole|, tooShort);
    assert whole[..|whole|] == whole;
    assert rest[..|rest|] == rest;
  }

  lemma ExtractUint64Whole(n: u64, rest: Bytes)
    ensures ExtractUint64(BE.Encode(n, 8) + rest) == Ok((rest, n))
  {
    var whole := BE.Encode(n, 8) + rest;
    assert whole[..8] == BE.Encode(n, 8) && whole[8..] == rest;
    BE.RoundTrip64(n);
  }

  /** Conversely, a field that was extracted is the encoding of what came out. */
  lemma ExtractFieldInverse(buff: Bytes, tooShort: Error)
    requires ExtractField(buff, tooShort).Ok?
    ensures var (rest, s) := ExtractField(buff, tooShort).value;
            |s| < U32 && buff == EncodeField(s) + rest
  {
    var (rest, s) := ExtractField(buff, tooShort).value;
    BE.DecodeBound(buff[..4]);
    BE.Widths();
    BE.EncodeDecode(buff[..4]);
    assert buff == buff[..4] + (buff[4..][..|s|] + buff[4..][|s|..]);
  }

  // ------------------------------------------------- proxy call data theorems

  /** The error reported when the header is cut inside some field. */
  function CutError(k: nat, tokenLen: nat, amountLen: nat): Error {
    if k < 20 then BufferTooShortForEthAddress
    else if k < 52 then BufferTooShortForMvxAddress
    else if k < 56 then BufferTooShortForLength
    else if k < 56 + tokenLen then BufferTooShortForString
    else if k < 60 + tokenLen then BufferTooShortForLength
    else if k < 60 + tokenLen + amountLen then BufferTooShortForBigInt
    else BufferTooShortForUint64
  }

  function EncodeTail(v: ProxyCallData, amountBytes: Bytes): Bytes {
    EncodeField(v.token) + (EncodeField(amountBytes) + (BE.Encode(v.nonce, 8) + v.rawCallData))
  }

  lemma ExtractUint64Cut(n: u64, rest: Bytes, k: nat)
    requires k <= 8 + |rest|
    ensures ExtractUint64((BE.Encode(n, 8) + rest)[..k]) ==
            if k < 8 then Err(BufferTooShortForUint64) else Ok((rest[..k - 8], n))
  {
    if k >= 8 {
      assert (BE.Encode(n, 8) + rest)[..k] == BE.Encode(n, 8) + rest[..k - 8];
      ExtractUint64Whole(n, rest[..k - 8]);
    }
  }

  /** The last field, cut after `k` bytes. */
  lemma DecodeNonceCut(v: ProxyCallData, amountBytes: Bytes, k: nat)
    requires Encodable(v, amountBytes) && k <= 8 + |v.rawCallData|
    ensures DecodeNonce(v.from, v.to, v.token, v.amount, (BE.Encode(v.nonce, 8) + v.rawCallData)[..k]) ==
            if k < 8 then Err(BufferTooShortForUint64) else Ok(v.(rawCallData := v.rawCallData[..k - 8]))
  {
    ExtractUint64Cut(v.nonce, v.rawCallData, k);
  }

  /** The last two fields, cut after `k` bytes. */
  lemma DecodeAmountCut(v: ProxyCallData, amountBytes: Bytes, k: nat)
    requires Encodable(v, amountBytes) && k <= 12 + |amountBytes| + |v.rawCallData|
    ensures DecodeAmount(v.from, v.to, v.token,
                         (EncodeField(amountBytes) + (BE.Encode(v.nonce, 8) + v.rawCallData))[..k]) ==
            if k < 4 then Err(BufferTooShortForLength)
            else if k < 4 + |amountBytes| then Err(BufferTooShortForBigInt)
            else if k < 12 + |amountBytes| then Err(BufferTooShortForUint64)
            else Ok(v.(rawCallData := v.rawCallData[..k - 12 - |amountBytes|]))
  {
    ExtractFieldCut(amountBytes, BE.Encode(v.nonce, 8) + v.rawCallData, k, BufferTooShortForBigInt);
    if k >= 4 + |amountBytes| {
      DecodeNonceCut(v, amountBytes, k - 4 - |amountBytes|);
    }
  }

  lemma DecodeTailCut(v: ProxyCallData, amountBytes: Bytes, k: nat)
    requires Encodable(v, amountBytes)
    requires k <= 16 + |v.token| + |amountBytes| + |v.rawCallData|
    ensures var fixed := 16 + |v.token| + |amountBytes|;
            DecodeTail(v.from, v.to, EncodeTail(v, amountBytes)[..k]) ==
            if k < fixed then Err(CutError(k + 52, |v.token|, |amountBytes|))
            else Ok(v.(rawCallData := v.rawCallData[..k - fixed]))
  {
    ExtractFieldCut(v.token, EncodeField(amountBytes) + (BE.Encode(v.nonce, 8) + v.rawCallData), k,
                    BufferTooShortForString);
    if k >= 4 + |v.token| {
      DecodeAmountCut(v, amountBytes, k - 4 - |v.token|);
    }
  }

  lemma CutAfterAddresses(from: Bytes, to: Bytes, tail: Bytes, k: nat)
    requires |from| == LEN_ETH_ADDRESS && |to| == LEN_MVX_ADDRESS && 52 <= k <= 52 + |tail|
    ensures (from + (to + tail))[..k] == from + (to + tail[..k - 52])
  {
  }

  lemma DecodeAfterAddresses(from: Bytes, to: Bytes, tail: Bytes)
    requires |from| == LEN_ETH_ADDRESS && |to| == LEN_MVX_ADDRESS
    ensures DecodeProxyCallData(from + (to + tail)) == DecodeTail(from, to, tail)
  {
    var whole := from + (to + tail);
    assert whole[..20] == from && whole[20..] == to + tail;
    assert (to + tail)[..32] == to && (to + tail)[32..] == tail;
  }

  lemma WholeMessage(v: ProxyCallData, amountBytes: Bytes)
    ensures EncodeHeader(v, amountBytes) + v.rawCallData == v.from + (v.to + EncodeTail(v, amountBytes))
  {
    Nested(v.from, v.to, EncodeField(v.token), EncodeField(amountBytes), BE.Encode(v.nonce, 8), v.rawCallData);
  }

  lemma Lengths(v: ProxyCallData, amountBytes: Bytes)
    requires Encodable(v, amountBytes)
    ensures |EncodeHeader(v, amountBytes)| == 68 + |v.token| + |amountBytes|
    ensures |EncodeTail(v, amountBytes)| == 16 + |v.token| + |amountBytes| + |v.rawCallData|
  {
  }

  lemma DecodeShort(buff: Bytes, tokenLen: nat, amountLen: nat)
    requires |buff| < 52
    ensures DecodeProxyCallData(buff) == Err(CutError(|buff|, tokenLen, amountLen))
  {
  }

  lemma DecodeLong(v: ProxyCallData, amountBytes: Bytes, k: nat)
    requires Encodable(v, amountBytes) && 52 <= k <= 52 + |EncodeTail(v, amountBytes)|
    ensures DecodeProxyCallData((v.from + (v.to + EncodeTail(v, amountBytes)))[..k]) ==
            DecodeTail(v.from, v.to, EncodeTail(v, amountBytes)[..k - 52])
  {
    CutAfterAddresses(v.from, v.to, EncodeTail(v, amountBytes), k);
    DecodeAfterAddresses(v.from, v.to, EncodeTail(v, amountBytes)[..k - 52]);
  }

  /** The outcome of decoding a message whose header and tail were cut together after `k` bytes. */
  function CutOutcome(v: ProxyCallData, amountBytes: Bytes, k: nat): Result<ProxyCallData, Error>
    requires k <= 68 + |v.token| + |amountBytes| + |v.rawCallData|
  {
    var fixed := 68 + |v.token| + |amountBytes|;
    if k < fixed then Err(CutError(k, |v.token|, |amountBytes|))
    else Ok(v.(rawCallData := v.rawCallData[..k - fixed]))
  }

  lemma TailOutcome(v: ProxyCallData, amountBytes: Bytes, k: nat)
    requires Encodable(v, amountBytes) && 52 <= k <= 68 + |v.token| + |amountBytes| + |v.rawCallData|
    ensures DecodeTail(v.from, v.to, EncodeTail(v, amountBytes)[..k - 52]) == CutOutcome(v, amountBytes, k)
  {
    DecodeTailCut(v, amountBytes, k - 52);
  }

  lemma LongOutcome(v: ProxyCallData, amountBytes: Bytes, whole: Bytes, k: nat)
    requires Encodable(v, amountBytes) && 52 <= k <= 52 + |EncodeTail(v, amountBytes)|
    requires whole == v.from + (v.to + EncodeTail(v, amountBytes))
    ensures |EncodeTail(v, amountBytes)| == 16 + |v.token| + |amountBytes| + |v.rawCallData|
    ensures DecodeProxyCallData(whole[..k]) == CutOutcome(v, amountBytes, k)
  {
    Lengths(v, amountBytes);
    DecodeLong(v, amountBytes, k);
    TailOutcome(v, amountBytes, k);
  }

  /** Decoding a header cut after `k` bytes, up to and including the whole message. */
  lemma DecodeCut(v: ProxyCallData, amountBytes: Bytes, k: nat)
    requires Encodable(v, amountBytes)
    requires k <= |EncodeHeader(v, amountBytes) + v.rawCallData|
    ensures var header := EncodeHeader(v, amountBytes);
            DecodeProxyCallData((header + v.rawCallData)[..k]) ==
            if k < |header| then Err(CutError(k, |v.token|, |amountBytes|))
            else Ok(v.(rawCallData := v.rawCallData[..k - |header|]))
  {
    Lengths(v, amountBytes);
    WholeMessage(v, amountBytes);
    var whole := EncodeHeader(v, amountBytes) + v.rawCallData;
    if k < 52 {
      DecodeShort(whole[..k], |v.token|, |amountBytes|);
    } else {
      LongOutcome(v, amountBytes, whole, k);
    }
  }

  lemma Nested(a: Bytes, b: Bytes, c: Bytes, d: Bytes, e: Bytes, f: Bytes)
    ensures a + (b + (c + (d + (e + f)))) == a + b + c + d + e + f
  {
  }

  /** Decoding undoes encoding and hands back the tail untouched. */
  lemma DecodeUndoesEncode(v: ProxyCallData, amountBytes: Bytes)
    requires Encodable(v, amountBytes)
    ensures DecodeProxyCallData(EncodeHeader(v, amountBytes) + v.rawCallData) == Ok(v)
  {
    var whole := EncodeHeader(v, amountBytes) + v.rawCallData;
    DecodeCut(v, amountBytes, |whole|);
    assert whole[..|whole|] == whole;
    assert v.rawCallData[..|v.rawCallData|] == v.rawCallData;
  }

  /** Every proper prefix of the header is rejected, with the error of the field it ends in. */
  lemma DecodeRejectsEveryPrefix(v: ProxyCallData, amountBytes: Bytes, k: nat)
    requires Encodable(v, amountBytes)
    requires k < |EncodeHeader(v, amountBytes)|
    ensures DecodeProxyCallData(EncodeHeader(v, amountBytes)[..k]) ==
            Err(CutError(k, |v.token|, |amountBytes|))
  {
    var header := EncodeHeader(v, amountBytes);
    DecodeCut(v, amountBytes, k);
    assert (header + v.rawCallData)[..k] == header[..k];
  }

  /** Nothing but an encoding is accepted. */
  lemma DecodeAcceptsOnlyEncodings(buff: Bytes) returns (amountBytes: Bytes)
    requires DecodeProxyCallData(buff).Ok?
    ensures var v := DecodeProxyCallData(buff).value;
            Encodable(v, amountBytes) && buff == EncodeHeader(v, amountBytes) + v.rawCallData
  {
    var v := DecodeProxyCallData(buff).value;
    var afterTo := buff[20..][32..];
    var afterToken := ExtractString(afterTo).value.0;
    var amountField := ExtractField(afterToken, BufferTooShortForBigInt);
    var afterAmount := amountField.value.0;
    amountBytes := amountField.value.1;
    ExtractFieldInverse(afterTo, BufferTooShortForString);
    ExtractFieldInverse(afterToken, BufferTooShortForBigInt);
    BE.EncodeDecode(afterAmount[..8]);
    assert afterAmount == afterAmount[..8] + afterAmount[8..];
    assert buff == buff[..20] + (buff[20..][..32] + afterTo);
    Nested(v.from, v.to, EncodeField(v.token), EncodeField(amountBytes), BE.Encode(v.nonce, 8), v.rawCallData);
  }
}
