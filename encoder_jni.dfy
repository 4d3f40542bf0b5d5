/** The low-level Java wrapper (EncoderJni.java): decoding status codes,
    unpacking the flat context array into a `StreamInfo`, the basic-info
    query (computed in Java) and the stream call that crosses into native
    code. The native method is an oracle: what it leaves in `context[0]`. */
module EncoderJni {
  import opened Wrappers
  import opened Jvm

  datatype Status = OK | INVALID_STREAM | NOT_ENOUGH_INPUT

  /** An enum ordinal is never negative. */
  type Ordinal = x: int32 | 0 <= x

  /** A `PixelFormat` constant, known here only by its ordinal. */
  datatype PixelFormat = PixelFormat(ordinal: Ordinal)

  datatype StreamInfo = StreamInfo(
    status: Status,
    width: int32,
    height: int32,
    pixelsSize: int32,
    iccSize: int32,
    alphaBits: int32)

  /** One crossing into `nativeGetJxlStream`: the request value in
      `context[0]` and the three buffers, in the native parameter order. */
  datatype NativeCall = StreamCall(context: int32, pixels: Buffer, data: Buffer, icc: Buffer)

  /** The wire value of each status: the table `makeStatus` decodes. */
  function WireCode(status: Status): int32 {
    match status
    case OK => 0
    case INVALID_STREAM => -1
    case NOT_ENOUGH_INPUT => 1
  }

  const UnknownPrefix: string := "Unknown status code: "

  /** The message `String.format("Unknown status code: %d", code)` builds. */
  function UnknownStatusMessage(code: int32): (message: string)
    ensures UnknownPrefix <= message
    ensures DecimalToInt(message[|UnknownPrefix|..]) == code as int
  {
    IntToDecimalRoundTrip(code as int);
    assert (UnknownPrefix + IntToDecimal(code as int))[|UnknownPrefix|..] == IntToDecimal(code as int);
    UnknownPrefix + IntToDecimal(code as int)
  }

  /** `makeStatus`: decodes 0, -1 and 1 and throws on every other code. */
  function MakeStatus(code: int32): (r: Result<Status, Exception>)
    ensures r.Ok? <==> code == 0 || code == -1 || code == 1
    ensures r.Ok? ==> WireCode(r.value) == code
    ensures r.Err? ==> r.error == IllegalStateException(UnknownStatusMessage(code))
  {
    if code == 0 then Ok(OK)
    else if code == -1 then Ok(INVALID_STREAM)
    else if code == 1 then Ok(NOT_ENOUGH_INPUT)
    else Err(IllegalStateException(UnknownStatusMessage(code)))
  }

  /** `makeStreamInfo`: slot 0 is the status code, slots 1 to 5 are width,
      height, pixels size, ICC size and alpha bits. Java reads the slots in
      that order, so a short array or an unknown code throws at the first
      slot that fails. */
  function MakeStreamInfo(context: seq<int32>): (r: Result<StreamInfo, Exception>)
    ensures |context| == 0 ==> r == Err(ArrayIndexOutOfBoundsException(0, 0))
    ensures |context| > 0 && MakeStatus(context[0]).Err? ==> r == Err(MakeStatus(context[0]).error)
    ensures |context| > 0 && MakeStatus(context[0]).Ok? && |context| < 6 ==>
              r == Err(ArrayIndexOutOfBoundsException(|context|, |context|))
    ensures r.Ok? <==> |context| >= 6 && MakeStatus(context[0]).Ok?
    ensures r.Ok? ==>
              && WireCode(r.value.status) == context[0]
              && r.value.width == context[1] && r.value.height == context[2]
              && r.value.pixelsSize == context[3] && r.value.iccSize == context[4]
              && r.value.alphaBits == context[5]
  {
    if |context| == 0 then Err(ArrayIndexOutOfBoundsException(0, 0))
    else
      match MakeStatus(context[0])
      case Err(e) => Err(e)
      case Ok(status) =>
        if |context| < 6 then Err(ArrayIndexOutOfBoundsException(|context|, |context|))
        else Ok(StreamInfo(status, context[1], context[2], context[3], context[4], context[5]))
  }

  /** The six-slot layout `makeStreamInfo` reads, written out for a `StreamInfo`. */
  function PackStreamInfo(info: StreamInfo): (context: seq<int32>)
    ensures |context| == 6
  {
    [WireCode(info.status), info.width, info.height, info.pixelsSize, info.iccSize, info.alphaBits]
  }

  /** The context `getBasicInfo` fills: no native code is involved. */
  function BasicInfoContext(width: int32, height: int32, pixelFormat: Option<PixelFormat>): (context: seq<int32>)
    ensures context == PackStreamInfo(StreamInfo(if pixelFormat.None? then INVALID_STREAM else OK, width, height, 8, 0, 0))
  {
    [if pixelFormat.None? then -1 else 0, width, height, 8, 0, 0]
  }

  /** `getBasicInfo`: rejects a pixels buffer that is not direct, then fills
      the context with fixed values and the caller's width and height. */
  method GetBasicInfo(pixels: Buffer?, width: int32, height: int32, pixelFormat: Option<PixelFormat>)
    returns (r: Result<StreamInfo, Exception>)
    ensures pixels == null ==> r == Err(NullPointerException)
    ensures pixels != null && !pixels.isDirect ==>
              r == Err(IllegalArgumentException("PixelData must be direct buffer"))
    ensures pixels != null && pixels.isDirect ==>
              r == Ok(StreamInfo(if pixelFormat.None? then INVALID_STREAM else OK, width, height, 8, 0, 0))
  {
    if pixels == null {
      return Err(NullPointerException);
    }
    if !pixels.isDirect {
      return Err(IllegalArgumentException("PixelData must be direct buffer"));
    }
    var context := new int32[6];
    context[0] := if pixelFormat.None? then -1 else 0;
    context[1] := width;
    context[2] := height;
    context[3] := 8;
    context[4] := 0;
    context[5] := 0;
    assert context[..] == BasicInfoContext(width, height, pixelFormat);
    BasicInfoDecodes(width, height, pixelFormat);
    r := MakeStreamInfo(context[..]);
  }

  /** `getJxlStream`: checks `data`, `pixels` and `icc` for directness in that
      order, then sends the format's ordinal in a one-slot context to the
      native code and decodes what the native code left there. `native` is
      the value the native method writes into `context[0]`; `calls` records
      every crossing into native code. */
  method GetJxlStream(data: Buffer?, pixels: Buffer?, icc: Buffer?, pixelFormat: Option<PixelFormat>,
                      native: NativeCall -> int32)
    returns (r: Result<Status, Exception>, calls: seq<NativeCall>)
    ensures data == null ==> r == Err(NullPointerException) && calls == []
    ensures data != null && !data.isDirect ==>
              r == Err(IllegalArgumentException("data must be direct buffer")) && calls == []
    ensures data != null && data.isDirect && pixels == null ==>
              r == Err(NullPointerException) && calls == []
    ensures data != null && data.isDirect && pixels != null && !pixels.isDirect ==>
              r == Err(IllegalArgumentException("pixels must be direct buffer")) && calls == []
    ensures data != null && data.isDirect && pixels != null && pixels.isDirect && icc == null ==>
              r == Err(NullPointerException) && calls == []
    ensures data != null && data.isDirect && pixels != null && pixels.isDirect && icc != null && !icc.isDirect ==>
              r == Err(IllegalArgumentException("icc must be direct buffer")) && calls == []
    ensures data != null && data.isDirect && pixels != null && pixels.isDirect && icc != null && icc.isDirect ==>
              if pixelFormat.None? then r == Err(NullPointerException) && calls == []
              else calls == [StreamCall(pixelFormat.value.ordinal, pixels, data, icc)] &&
                   r == MakeStatus(native(calls[0]))
  {
    calls := [];
    if data == null {
      return Err(NullPointerException), calls;
    }
    if !data.isDirect {
      return Err(IllegalArgumentException("data must be direct buffer")), calls;
    }
    if pixels == null {
      return Err(NullPointerException), calls;
    }
    if !pixels.isDirect {
      return Err(IllegalArgumentException("pixels must be direct buffer")), calls;
    }
    if icc == null {
      return Err(NullPointerException), calls;
    }
    if !icc.isDirect {
      return Err(IllegalArgumentException("icc must be direct buffer")), calls;
    }
    var context := new int32[1];
    if pixelFormat.None? {
      return Err(NullPointerException), calls;
    }
    context[0] := pixelFormat.value.ordinal;
    var call := StreamCall(context[0], pixels, data, icc);
    context[0] := native(call);
    calls := [call];
    r := MakeStatus(context[0]);
  }

  // Properties of the Java side.

  /** `makeStatus` inverts the wire table. */
  lemma MakeStatusDecodesWireCode(status: Status)
    ensures MakeStatus(WireCode(status)) == Ok(status)
  {
  }

  /** Two unknown codes never produce the same exception message. */
  lemma UnknownStatusMessageInjective(a: int32, b: int32)
    requires UnknownStatusMessage(a) == UnknownStatusMessage(b)
    ensures a == b
  {
  }

  /** Unpacking a packed `StreamInfo` gives it back. */
  lemma StreamInfoRoundTrip(info: StreamInfo)
    ensures MakeStreamInfo(PackStreamInfo(info)) == Ok(info)
  {
    MakeStatusDecodesWireCode(info.status);
  }

  /** A six-slot context that unpacks is exactly the packing of what it
      unpacks to: no slot is dropped or reordered. */
  lemma StreamInfoUnpackRoundTrip(context: seq<int32>)
    requires |context| == 6 && MakeStreamInfo(context).Ok?
    ensures PackStreamInfo(MakeStreamInfo(context).value) == context
  {
  }

  /** The basic-info context always unpacks: status OK for a format, INVALID_STREAM
      without one, the caller's width and height, 8, 0 and 0. */
  lemma BasicInfoDecodes(width: int32, height: int32, pixelFormat: Option<PixelFormat>)
    ensures MakeStreamInfo(BasicInfoContext(width, height, pixelFormat)) ==
            Ok(StreamInfo(if pixelFormat.None? then INVALID_STREAM else OK, width, height, 8, 0, 0))
  {
    var context := BasicInfoContext(width, height, pixelFormat);
    assert MakeStatus(context[0]).Ok?;
  }
}
