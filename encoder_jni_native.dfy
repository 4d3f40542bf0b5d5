/** The native half of the binding (encoder_jni.cc): checked narrowing of a
    buffer capacity, turning a Java buffer into a pointer and a size, the
    three-valued status code, and the `nativeGetJxlStream` entry point. The
    libjxl encoder calls are an oracle: their replies are an input. */
module EncoderJniNative {
  import opened Jvm
  import opened CppIntegers

  /** The failure codes of `jxl::Status` that this file produces:
      `kNotEnoughBytes` is non-fatal, `kGenericError` is fatal. */
  datatype StatusCode = NotEnoughBytes | GenericError

  /** A `jxl::Status`: success, or a failure code. A `jxl::Status` holds only
      its code; `reason` is this model's label for the return site that
      produced the failure (the text logged there, empty for a bare
      `return false`), and `ToStatusCode` discards it. */
  datatype JxlStatus = JxlOk | JxlFailure(code: StatusCode, reason: string) {
    predicate IsFatalError() {
      JxlFailure? && code == GenericError
    }
  }

  /** A `jobject` standing for a `java.nio.Buffer`, as JNI sees it: what
      `GetDirectBufferAddress` returns (0 is `nullptr`) and what
      `GetDirectBufferCapacity` returns (-1 for a buffer that is not direct). */
  datatype JObject = JNull | JBuffer(directAddress: nat, directCapacity: int)

  /** A capacity is a `jlong`. */
  predicate WellFormed(o: JObject) {
    o.JBuffer? ==> InRange(o.directCapacity, JLong)
  }

  /** The replies of the libjxl encoder functions, `JxlEncoderStatus`. */
  datatype EncoderStatus = EncSuccess | EncError | EncNeedMoreOutput

  /** What the libjxl calls of `DoEncode` reply, in call order. */
  datatype LibjxlReplies = LibjxlReplies(
    setParallelRunner: EncoderStatus,
    setBasicInfo: EncoderStatus,
    setColorEncoding: EncoderStatus,
    processOutput: EncoderStatus)

  /** `kLastPixelFormat`: the largest pixel-format ordinal the native side accepts. */
  const LastPixelFormat: int := 3

  /** `StaticCast<From, To>`: converts `from` and stores the result in `*to`
      (here: returned as `newTo`) only when neither the sign nor the value
      changed; otherwise `*to` keeps its old value `to`. */
  method StaticCast(from: int, fromType: IntegerType, toType: IntegerType, to: int)
    returns (ok: bool, newTo: int)
    requires InRange(from, fromType)
    ensures ok <==> InRange(from, toType)
    ensures ok ==> newTo == from
    ensures !ok ==> newTo == to
  {
    CastChecksExact(from, fromType, toType);
    var tmp := Convert(from, toType);
    if (from < 0 && tmp > 0) || (from > 0 && tmp < 0) {
      return false, to;
    }
    if from != Convert(tmp, fromType) {
      return false, to;
    }
    return true, tmp;
  }

  /** When `BufferToSpan` succeeds: no buffer at all, or a direct address
      together with a capacity that fits `size_t`. */
  predicate SpanOk(buffer: JObject) {
    buffer.JNull? || (buffer.directAddress != 0 && buffer.directCapacity >= 0)
  }

  /** `BufferToSpan`: the out-pointers `*data` and `*size` come in as `data`
      and `size` and go out as `newData` and `newSize`. */
  method BufferToSpan(buffer: JObject, data: nat, size: int)
    returns (ok: bool, newData: nat, newSize: int)
    requires WellFormed(buffer)
    ensures ok <==> SpanOk(buffer)
    ensures buffer.JNull? ==> newData == data && newSize == size
    ensures buffer.JBuffer? ==> newData == buffer.directAddress
    ensures newSize == if buffer.JBuffer? && ok then buffer.directCapacity else size
    ensures ok && buffer.JBuffer? ==> InRange(newSize, SizeT)
  {
    if buffer.JNull? {
      return true, data, size;
    }
    newData := buffer.directAddress;
    if newData == 0 {
      return false, newData, size;
    }
    ok, newSize := StaticCast(buffer.directCapacity, JLong, SizeT, size);
  }

  /** `ToStatusCode`: 0 for success, -1 for a fatal failure, 1 otherwise. */
  function ToStatusCode(status: JxlStatus): (code: int32)
    ensures code == 0 <==> status.JxlOk?
    ensures code == -1 <==> status.IsFatalError()
    ensures code == 1 <==> status.JxlFailure? && status.code == NotEnoughBytes
  {
    if status.JxlOk? then 0 else if status.IsFatalError() then -1 else 1
  }

  /** The status the libjxl part of `DoEncode` ends with. Only a request for
      more output is checked after `JxlEncoderProcessOutput`, so an error
      reply from it still ends in success. */
  function LibjxlStatus(lib: LibjxlReplies): (status: JxlStatus)
    ensures status.JxlOk? <==>
              lib.setParallelRunner == EncSuccess && lib.setBasicInfo == EncSuccess &&
              lib.setColorEncoding == EncSuccess && lib.processOutput != EncNeedMoreOutput
    ensures status.JxlFailure? && !status.IsFatalError() <==>
              lib.setParallelRunner == EncSuccess && lib.setBasicInfo == EncSuccess &&
              lib.setColorEncoding == EncSuccess && lib.processOutput == EncNeedMoreOutput
  {
    if lib.setParallelRunner != EncSuccess then
      JxlFailure(GenericError, "Failed to set parallel runner")
    else if lib.setBasicInfo != EncSuccess then
      JxlFailure(GenericError, "")
    else if lib.setColorEncoding != EncSuccess then
      JxlFailure(GenericError, "Unexpected notification (want: color encoding)")
    else if lib.processOutput == EncNeedMoreOutput then
      JxlFailure(NotEnoughBytes, "Not enough input")
    else
      JxlOk
  }

  /** The status `DoEncode` returns, stated on values. The "pixels" span is
      taken from `data` (as the source does), so the second check of `data`
      repeats the first. */
  function DoEncodeStatus(data: JObject, pixels: JObject, icc: JObject, lib: LibjxlReplies): (status: JxlStatus)
    ensures pixels.JNull? ==> status == JxlFailure(GenericError, "No pixels buffer")
    ensures pixels.JBuffer? && !(SpanOk(data) && SpanOk(icc)) ==> status.IsFatalError()
    ensures pixels.JBuffer? && SpanOk(data) && SpanOk(icc) ==> status == LibjxlStatus(lib)
  {
    if pixels.JNull? then JxlFailure(GenericError, "No pixels buffer")
    else if !SpanOk(data) then JxlFailure(GenericError, "Failed to access pixels buffer")
    else if !SpanOk(data) then JxlFailure(GenericError, "Failed to access data buffer")
    else if !SpanOk(icc) then JxlFailure(GenericError, "Failed to access ICC buffer")
    else LibjxlStatus(lib)
  }

  /** `DoEncode`. `pixelFormat` is passed but not used by the source. */
  method DoEncode(data: JObject, pixelFormat: int, pixels: JObject, icc: JObject, lib: LibjxlReplies)
    returns (status: JxlStatus)
    requires WellFormed(data) && WellFormed(icc)
    ensures status == DoEncodeStatus(data, pixels, icc, lib)
  {
    if pixels.JNull? {
      return JxlFailure(GenericError, "No pixels buffer");
    }
    var ok: bool;
    var pixelsPtr: nat, pixelsSize: int := 0, 0;
    ok, pixelsPtr, pixelsSize := BufferToSpan(data, pixelsPtr, pixelsSize);
    if !ok {
      return JxlFailure(GenericError, "Failed to access pixels buffer");
    }
    var dataPtr: nat, dataSize: int := 0, 0;
    ok, dataPtr, dataSize := BufferToSpan(data, dataPtr, dataSize);
    if !ok {
      return JxlFailure(GenericError, "Failed to access data buffer");
    }
    var iccPtr: nat, iccSize: int := 0, 0;
    ok, iccPtr, iccSize := BufferToSpan(icc, iccPtr, iccSize);
    if !ok {
      return JxlFailure(GenericError, "Failed to access ICC buffer");
    }
    status := LibjxlStatus(lib);
  }

  /** The status `nativeGetJxlStream` ends with for the `jint` found in
      `ctx[0]`: the format is read as a `size_t`, so a negative one wraps
      to a huge value and is rejected like any other above the last format. */
  function NativeStatus(format: int32, pixels: JObject, data: JObject, icc: JObject, lib: LibjxlReplies): (status: JxlStatus)
    ensures 0 <= format as int <= LastPixelFormat ==> status == DoEncodeStatus(data, pixels, icc, lib)
    ensures format < 0 || format as int > LastPixelFormat ==>
              status == JxlFailure(GenericError, "Unrecognized pixel format")
  {
    FormatOutOfRange(format);
    if Convert(format as int, SizeT) > LastPixelFormat then
      JxlFailure(GenericError, "Unrecognized pixel format")
    else
      DoEncodeStatus(data, pixels, icc, lib)
  }

  /** `nativeGetJxlStream`: reads the format from `ctx[0]`, threads the status
      through the format guard and `DoEncode`, and writes the status code
      back into `ctx[0]`. */
  method NativeGetJxlStream(ctx: array<int32>, pixels: JObject, data: JObject, icc: JObject, lib: LibjxlReplies)
    requires ctx.Length >= 1
    requires WellFormed(data) && WellFormed(icc)
    modifies ctx
    ensures ctx[0] == ToStatusCode(NativeStatus(old(ctx[0]), pixels, data, icc, lib))
    ensures ctx[1..] == old(ctx[1..])
  {
    var context := new int32[1];
    context[0] := ctx[0];
    var pixelFormat: int := 0;
    var status := JxlOk;
    if status.JxlOk? {
      pixelFormat := Convert(context[0] as int, SizeT);
      if pixelFormat > LastPixelFormat {
        status := JxlFailure(GenericError, "Unrecognized pixel format");
      }
    }
    if status.JxlOk? {
      status := DoEncode(data, pixelFormat, pixels, icc, lib);
    }
    context[0] := ToStatusCode(status);
    ctx[0] := context[0];
  }

  // Properties of the native side.

  /** A negative capacity never makes a span, whatever the address. */
  lemma NegativeCapacityRejected(address: nat, capacity: int)
    requires capacity < 0
    ensures !SpanOk(JBuffer(address, capacity))
  {
  }

  /** The status code is one of the three values the Java side knows. */
  lemma StatusCodeRange(status: JxlStatus)
    ensures ToStatusCode(status) in {-1, 0, 1}
  {
  }

  /** `DoEncode` succeeds exactly when pixels are given, both spans can be
      made and the libjxl calls up to the colour encoding succeed, and the
      output step did not ask for more room (an error reply passes). */
  lemma DoEncodeSucceeds(data: JObject, pixels: JObject, icc: JObject, lib: LibjxlReplies)
    ensures DoEncodeStatus(data, pixels, icc, lib) == JxlOk <==>
      pixels.JBuffer? && SpanOk(data) && SpanOk(icc) &&
      lib.setParallelRunner == EncSuccess && lib.setBasicInfo == EncSuccess &&
      lib.setColorEncoding == EncSuccess && lib.processOutput != EncNeedMoreOutput
  {
  }

  /** `DoEncode` never reports a non-fatal failure except when the output
      step asks for more room. */
  lemma DoEncodeNonFatal(data: JObject, pixels: JObject, icc: JObject, lib: LibjxlReplies)
    ensures DoEncodeStatus(data, pixels, icc, lib).JxlFailure? &&
            !DoEncodeStatus(data, pixels, icc, lib).IsFatalError() <==>
      pixels.JBuffer? && SpanOk(data) && SpanOk(icc) &&
      lib.setParallelRunner == EncSuccess && lib.setBasicInfo == EncSuccess &&
      lib.setColorEncoding == EncSuccess && lib.processOutput == EncNeedMoreOutput
  {
  }

  /** A null pixels buffer fails before any buffer or the encoder is touched:
      the outcome is the same whatever the other inputs are. */
  lemma NullPixelsFailsFirst(data: JObject, icc: JObject, lib: LibjxlReplies)
    ensures DoEncodeStatus(data, JNull, icc, lib) == JxlFailure(GenericError, "No pixels buffer")
  {
  }

  /** The data-buffer check in `DoEncode` can never fail: the same buffer
      has just passed the identical check. */
  lemma DataBufferCheckUnreachable(data: JObject, pixels: JObject, icc: JObject, lib: LibjxlReplies)
    ensures DoEncodeStatus(data, pixels, icc, lib) != JxlFailure(GenericError, "Failed to access data buffer")
  {
  }

  /** The format guard rejects exactly the `jint` values outside `0..3`,
      negative ones included, and then `DoEncode` is not consulted. */
  lemma FormatGuard(format: int32, pixels: JObject, data: JObject, icc: JObject, lib: LibjxlReplies)
    ensures NativeStatus(format, pixels, data, icc, lib) == JxlFailure(GenericError, "Unrecognized pixel format")
            <==> format < 0 || format as int > LastPixelFormat
    ensures 0 <= format as int <= LastPixelFormat ==>
            NativeStatus(format, pixels, data, icc, lib) == DoEncodeStatus(data, pixels, icc, lib)
  {
    FormatOutOfRange(format);
    FormatReasonDistinct(data, pixels, icc, lib);
  }

  /** A `jint` read as a `size_t` exceeds the last format exactly when it is
      negative or above it. */
  lemma FormatOutOfRange(format: int32)
    ensures Convert(format as int, SizeT) > LastPixelFormat <==> format < 0 || format as int > LastPixelFormat
  {
    Pow2Values();
    assert InRange(format as int, JInt);
    SizeTOfJInt(format as int);
  }

  /** No step of `DoEncode` reports the format guard's reason. */
  lemma FormatReasonDistinct(data: JObject, pixels: JObject, icc: JObject, lib: LibjxlReplies)
    ensures DoEncodeStatus(data, pixels, icc, lib) != JxlFailure(GenericError, "Unrecognized pixel format")
  {
  }
}
