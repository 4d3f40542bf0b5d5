/** The status protocol across the boundary: what `ToStatusCode` produces on
    the native side is always something `makeStatus` accepts on the Java side. */
module Boundary {
  import opened Wrappers
  import opened Jvm
  import opened EncoderJni
  import opened EncoderJniNative

  /** The Java status a native status arrives as. */
  function JavaStatus(status: JxlStatus): Status {
    if status.JxlOk? then OK
    else if status.IsFatalError() then INVALID_STREAM
    else NOT_ENOUGH_INPUT
  }

  /** Encoding a native status and decoding it in Java is total: it never
      throws, success arrives as OK, a fatal failure as INVALID_STREAM and the
      non-fatal one as NOT_ENOUGH_INPUT. */
  lemma StatusProtocolTotal(status: JxlStatus)
    ensures MakeStatus(ToStatusCode(status)) == Ok(JavaStatus(status))
    ensures JavaStatus(status) == OK <==> status.JxlOk?
    ensures JavaStatus(status) == INVALID_STREAM <==> status.IsFatalError()
  {
  }

  /** Whatever a Java caller sends in `context[0]` and whatever libjxl
      replies, the code `nativeGetJxlStream` writes back decodes without an
      exception, and it decodes to OK exactly when the format is one of
      `0..3` and `DoEncode` succeeded. */
  lemma NativeReplyDecodes(format: int32, pixels: JObject, data: JObject, icc: JObject, lib: LibjxlReplies)
    ensures MakeStatus(ToStatusCode(NativeStatus(format, pixels, data, icc, lib))).Ok?
    ensures MakeStatus(ToStatusCode(NativeStatus(format, pixels, data, icc, lib))) == Ok(OK) <==>
            0 <= format as int <= LastPixelFormat && DoEncodeStatus(data, pixels, icc, lib) == JxlOk
    ensures format < 0 ==>
            MakeStatus(ToStatusCode(NativeStatus(format, pixels, data, icc, lib))) == Ok(INVALID_STREAM)
  {
    FormatGuard(format, pixels, data, icc, lib);
    StatusProtocolTotal(NativeStatus(format, pixels, data, icc, lib));
  }
}
