/**
 The smart-contract call data attached to the deposits of an Ethereum batch:
 a marker, the length on four bytes and the payload, or the lone "missing" marker.
 */
module Framing {
  import opened Common
  import BE = BigEndian
  import opened Codec

  /** An ERC20SCDeposit log: the deposit it belongs to and the raw call data. */
  datatype ScDepositEvent = ScDepositEvent(depositNonce: nat, callData: Bytes)

  class DepositTransfer {
    const nonce: u64
    var data: Bytes
    var displayableData: string

    constructor (nonce: u64)
      ensures this.nonce == nonce && data == [] && displayableData == ""
    {
      this.nonce := nonce;
      data := [];
      displayableData := "";
    }
  }

  // ------------------------------------------------------- specification

  const HEX_DIGITS := "0123456789abcdef"

  function HexEncode(s: Bytes): string {
    if s == [] then "" else [HEX_DIGITS[s[0] / 16], HEX_DIGITS[s[0] % 16]] + HexEncode(s[1..])
  }

  predicate CarriesCall(buff: Bytes) {
    buff != [] && buff != [MISSING_DATA_MARKER]
  }

  /** The data field of a deposit whose event carries `buff`. */
  function Frame(buff: Bytes): Bytes {
    if CarriesCall(buff) then [DATA_PRESENT_MARKER] + BE.Encode(|buff|, 4) + buff
    else [MISSING_DATA_MARKER]
  }

  /** The call data of the first event for the deposit; none is the same as an empty payload. */
  function CallDataFor(nonce: u64, events: seq<ScDepositEvent>): Bytes {
    if events == [] then []
    else if events[0].depositNonce % U64 == nonce then events[0].callData
    else CallDataFor(nonce, events[1..])
  }

  /** A lone missing marker keeps whatever was displayed before; everything else overwrites it. */
  function DisplayFor(buff: Bytes, before: string): string {
    if buff == [] then "" else if CarriesCall(buff) then HexEncode(buff) else before
  }

  // ------------------------------------------------------ implementation

  method ProcessData(transfer: DepositTransfer, buff: Bytes)
    modifies transfer
    ensures transfer.data == Frame(buff)
    ensures transfer.displayableData == DisplayFor(buff, old(transfer.displayableData))
  {
    transfer.data := buff;
    var dataLen := |transfer.data|;
    if dataLen == 0 {
      transfer.data := [MISSING_DATA_MARKER];
      transfer.displayableData := "";
      return;
    }
    if dataLen == 1 && buff[0] == MISSING_DATA_MARKER {
      return;
    }
    transfer.displayableData := HexEncode(transfer.data);
    var prefix := [DATA_PRESENT_MARKER] + BE.Encode(dataLen, 4);
    transfer.data := prefix + transfer.data;
  }

  method AddMetadataToTransfer(transfer: DepositTransfer, events: seq<ScDepositEvent>)
    modifies transfer
    ensures transfer.data == Frame(CallDataFor(transfer.nonce, events))
    ensures transfer.displayableData ==
            DisplayFor(CallDataFor(transfer.nonce, events), old(transfer.displayableData))
  {
    for k := 0 to |events|
      invariant transfer.data == old(transfer.data) && transfer.displayableData == old(transfer.displayableData)
      invariant CallDataFor(transfer.nonce, events) == CallDataFor(transfer.nonce, events[k..])
    {
      if events[k].depositNonce % U64 == transfer.nonce {
        ProcessData(transfer, events[k].callData);
        return;
      }
      assert events[k..][1..] == events[k + 1..];
    }
    transfer.data := [MISSING_DATA_MARKER];
    transfer.displayableData := "";
  }

  /** Every deposit gets the framed data of its own event; the same deposit may occur twice. */
  method AddBatchScMetadata(deposits: seq<DepositTransfer>, events: seq<ScDepositEvent>)
    modifies Elements(deposits)
    ensures forall d :: d in deposits ==> d.data == Frame(CallDataFor(d.nonce, events))
    ensures forall d :: d in deposits ==>
              d.displayableData == DisplayFor(CallDataFor(d.nonce, events), old(d.displayableData))
  {
    for k := 0 to |deposits|
      invariant forall d :: d in deposits[..k] ==> d.data == Frame(CallDataFor(d.nonce, events))
      invariant forall d :: d in deposits[..k] ==>
                  d.displayableData == DisplayFor(CallDataFor(d.nonce, events), old(d.displayableData))
      invariant forall d :: d in deposits && d !in deposits[..k] ==> unchanged(d)
    {
      assert deposits[..k + 1] == deposits[..k] + [deposits[k]];
      AddMetadataToTransfer(deposits[k], events);
    }
    assert deposits[..|deposits|] == deposits;
  }

  // ------------------------------------------------------------ theorems

  /** Framing loses nothing but the difference between the two ways of saying "no call". */
  lemma FrameLosesOnlyEmptyCalls(a: Bytes, b: Bytes)
    ensures Frame(a) == Frame(b) <==> a == b || (!CarriesCall(a) && !CarriesCall(b))
  {
    if CarriesCall(a) {
      assert Frame(a)[0] == DATA_PRESENT_MARKER && Frame(a)[5..] == a;
    }
    if CarriesCall(b) {
      assert Frame(b)[0] == DATA_PRESENT_MARKER && Frame(b)[5..] == b;
    }
  }

  lemma StrictShape(c: CallData) returns (tail: Bytes)
    ensures EncodeCallDataStrict(c) == EncodeField(c.function_) + (BE.Encode(c.gasLimit, 8) + tail)
  {
    tail := if c.arguments == [] then [MISSING_DATA_MARKER]
            else [DATA_PRESENT_MARKER] + BE.Encode(|c.arguments|, 4) + EncodeArgs(c.arguments);
  }

  /** The declared length is compared with the actual one, modulo its four bytes. */
  lemma DeclaredLength(body: Bytes)
    ensures ExtractUint32(BE.Encode(|body|, 4) + body) ==
            Ok((body, if |body| < U32 then |body| else |body| % U32))
  {
    var buff := BE.Encode(|body|, 4) + body;
    assert buff[..4] == BE.Encode(|body|, 4) && buff[4..] == body;
    BE.DecodeEncode(|body|, 4);
    BE.Widths();
    if |body| < U32 {
      BE.RoundTrip32(|body|);
    }
  }

  lemma FrameShape(body: Bytes)
    requires CarriesCall(body)
    ensures Frame(body) == [DATA_PRESENT_MARKER] + (BE.Encode(|body|, 4) + body)
  {
  }

  lemma DecodeMarked(rest: Bytes)
    ensures ExtractGasLimit([DATA_PRESENT_MARKER] + rest) == PartiallyDecodeCallData(rest)
  {
    assert ([DATA_PRESENT_MARKER] + rest)[1..] == rest;
  }

  /** A body whose length did not survive in four bytes is refused. */
  lemma DecodeOverlong(body: Bytes)
    requires |body| >= U32
    ensures PartiallyDecodeCallData(BE.Encode(|body|, 4) + body) == Err(BufferLenMismatch)
  {
    DeclaredLength(body);
  }

  lemma DecodeBody(function_: Bytes, gasLimit: u64, tail: Bytes)
    requires |function_| < U32
    ensures ExtractString(EncodeField(function_) + (BE.Encode(gasLimit, 8) + tail)) ==
            Ok((BE.Encode(gasLimit, 8) + tail, function_))
    ensures ExtractUint64(BE.Encode(gasLimit, 8) + tail) == Ok((tail, gasLimit))
  {
    ExtractFieldWhole(function_, BE.Encode(gasLimit, 8) + tail, BufferTooShortForString);
    ExtractUint64Whole(gasLimit, tail);
  }

  lemma DecodeParts(buff: Bytes, body: Bytes, function_: Bytes, rest: Bytes, gasLimit: u64, tail: Bytes)
    requires ExtractUint32(buff) == Ok((body, |body|))
    requires ExtractString(body) == Ok((rest, function_))
    requires ExtractUint64(rest) == Ok((tail, gasLimit))
    ensures PartiallyDecodeCallData(buff) == Ok(gasLimit)
  {
  }

  lemma DecodeStrict(c: CallData)
    requires |EncodeCallDataStrict(c)| < U32
    ensures var strict := EncodeCallDataStrict(c);
            PartiallyDecodeCallData(BE.Encode(|strict|, 4) + strict) == Ok(c.gasLimit)
  {
    var strict := EncodeCallDataStrict(c);
    var tail := StrictShape(c);
    DeclaredLength(strict);
    assert |c.function_| < U32;
    DecodeBody(c.function_, c.gasLimit, tail);
    DecodeParts(BE.Encode(|strict|, 4) + strict, strict, c.function_,
                BE.Encode(c.gasLimit, 8) + tail, c.gasLimit, tail);
  }

  /** Extracting the gas limit undoes framing and encoding, exactly when the length fits its four bytes. */
  lemma GasLimitSurvivesFraming(c: CallData)
    ensures ExtractGasLimit(Frame(EncodeCallDataStrict(c))) == Ok(c.gasLimit)
            <==> |EncodeCallDataStrict(c)| < U32
  {
    var strict := EncodeCallDataStrict(c);
    FrameShape(strict);
    DecodeMarked(BE.Encode(|strict|, 4) + strict);
    if |strict| < U32 {
      DecodeStrict(c);
    } else {
      DecodeOverlong(strict);
    }
  }

  /** A deposit without a call is refused by the gas-limit reader because of its marker. */
  lemma MissingDataHasNoGasLimit(nonce: u64, events: seq<ScDepositEvent>)
    ensures !CarriesCall(CallDataFor(nonce, events)) <==>
            ExtractGasLimit(Frame(CallDataFor(nonce, events))) == Err(UnexpectedMarker(MISSING_DATA_MARKER))
  {
    var buff := CallDataFor(nonce, events);
    if CarriesCall(buff) {
      assert Frame(buff)[0] == DATA_PRESENT_MARKER;
    }
  }
}
