# JPEG XL encoder JNI binding — a Dafny model

This project models the visible logic of the Java/JNI binding around the
JPEG XL encoder (package `org.jpeg.jpegxl.wrapper`): the Java facade
`Encoder.encode`, the low-level wrapper `EncoderJni`, and the native side in
`encoder_jni.cc`. The codec itself lives in libjxl and is not modelled: the
libjxl calls are an oracle whose replies are inputs, and the Java `native`
method is an oracle giving the value it leaves in its context slot.

Modules, one per source file or concern:

- `Wrappers` (`wrappers.dfy`): `Option` and `Result`.
- `Jvm` (`jvm.dfy`): Java `int` (`jint`) as `int32`, the exceptions the binding
  raises, `java.nio.Buffer` as a class with constant directness and capacity
  (a class because buffer identity matters: which buffer ends up in the
  result), and the decimal rendering used by `String.format("%d", …)`.
- `CppIntegers` (`cpp_integers.dfy`): C++ integral types by width and
  signedness, and the wrap-around conversion that `static_cast` and implicit
  integral conversions perform. `size_t` is taken as 64-bit unsigned (LP64).
- `EncoderJniNative` (`encoder_jni_native.dfy`): `StaticCast`, `BufferToSpan`,
  `DoEncode` and `nativeGetJxlStream` as methods, with out-pointers modelled
  as in/out values; `ToStatusCode` as a function; and pure functions
  (`LibjxlStatus`, `DoEncodeStatus`, `NativeStatus`) stating the status the
  methods end with.
- `EncoderJni` (`encoder_jni.dfy`): `makeStatus`, `makeStreamInfo`,
  `getBasicInfo`, `getJxlStream`.
- `Encoder` (`encoder.dfy`): `encode`.
- `Boundary` (`boundary.dfy`): the status-code protocol across the two sides.

Behaviour of the code as written, which the model keeps:

- `getBasicInfo` makes no native call: it fills the six-slot context in Java
  with the caller's width and height, 8, 0 and 0, and status OK (INVALID_STREAM
  when no format is given). A documented design in which the sizes come from a
  native size query differs from the code; the model follows the code. So
  `encode` always allocates an 8-byte data buffer and an empty ICC buffer, and
  the only way to reach "JNI has returned negative size" is a negative width or
  height from the caller.
- `encode` puts the caller's `pixels` buffer, not the filled `data` buffer, in
  its result, with the fresh ICC buffer (capacity 0).
- Unknown status codes and bad sizes both surface as `IllegalStateException`
  (no separate error kinds); buffers that are not direct surface as
  `IllegalArgumentException`, each with its own message.
- `DoEncode` takes its "pixels" span from the data buffer, so its later check
  of the data buffer can never fail; its `pixels_buffer` is only compared with
  null.
- After `JxlEncoderProcessOutput` only a request for more output is treated as
  a failure; an error reply ends in success.
- A `jint` format below 0 wraps to a huge `size_t` and is rejected by the same
  guard as one above 3.

## Model

| member | source | states |
|---|---|---|
| `CppIntegers.Convert` | tools/jni/org/jpeg/jpegxl/wrapper/encoder_jni.cc:22-26 | an integral conversion yields a value of the target type congruent to the input modulo 2^bits, and the input itself when it is representable |
| `CppIntegers.CastChecksExact` | tools/jni/org/jpeg/jpegxl/wrapper/encoder_jni.cc:20-29 | for any two integer types, the sign check and the round-trip check of `StaticCast` both pass exactly when the value is representable in the target type |
| `CppIntegers.SizeTOfJInt` | tools/jni/org/jpeg/jpegxl/wrapper/encoder_jni.cc:142 | a `jint` stored in a `size_t` keeps a non-negative value and turns a negative one into value + 2^64, beyond 2^32 - 1 |
| `EncoderJniNative.StaticCast` | tools/jni/org/jpeg/jpegxl/wrapper/encoder_jni.cc:20-29 | succeeds exactly when the value fits the target type; on success the output equals the input, on failure the output keeps its previous value |
| `EncoderJniNative.BufferToSpan` | tools/jni/org/jpeg/jpegxl/wrapper/encoder_jni.cc:31-37 | a null buffer succeeds with both out-values unchanged; otherwise the data out-value is the direct address, a null address fails without writing the size, and success requires a non-negative capacity, which becomes the size |
| `EncoderJniNative.NegativeCapacityRejected` | tools/jni/org/jpeg/jpegxl/wrapper/encoder_jni.cc:24-36 | a negative `jlong` capacity never yields a span, whatever the address |
| `EncoderJniNative.ToStatusCode` | tools/jni/org/jpeg/jpegxl/wrapper/encoder_jni.cc:39-43 | 0 exactly for success, -1 exactly for a fatal failure, 1 exactly for the non-fatal one |
| `EncoderJniNative.StatusCodeRange` | tools/jni/org/jpeg/jpegxl/wrapper/encoder_jni.cc:39-43 | the code is always one of -1, 0, 1 |
| `EncoderJniNative.LibjxlStatus` | tools/jni/org/jpeg/jpegxl/wrapper/encoder_jni.cc:87-114 | the libjxl part ends in success exactly when the parallel runner, basic info and colour encoding calls succeed and the output step does not ask for more output (an error reply from the output step still ends in success); it fails non-fatally exactly when only the output step asks for more output |
| `EncoderJniNative.DoEncodeStatus` | tools/jni/org/jpeg/jpegxl/wrapper/encoder_jni.cc:53-114 | a null pixels buffer gives the "No pixels buffer" failure; otherwise a span that cannot be made (of the data buffer, read twice, or of the ICC buffer) gives a fatal failure, and when both spans can be made the status is that of the libjxl part |
| `EncoderJniNative.DoEncode` | tools/jni/org/jpeg/jpegxl/wrapper/encoder_jni.cc:48-115 | the status returned by the sequence of checks (null pixels, pixels span from the data buffer, data span, ICC span, then the libjxl replies) equals `DoEncodeStatus` |
| `EncoderJniNative.NullPixelsFailsFirst` | tools/jni/org/jpeg/jpegxl/wrapper/encoder_jni.cc:53 | a null pixels buffer fails with "No pixels buffer" whatever the other buffers and the encoder would do |
| `EncoderJniNative.DataBufferCheckUnreachable` | tools/jni/org/jpeg/jpegxl/wrapper/encoder_jni.cc:55-65 | the "Failed to access data buffer" failure can never be returned |
| `EncoderJniNative.DoEncodeSucceeds` | tools/jni/org/jpeg/jpegxl/wrapper/encoder_jni.cc:53-114 | `DoEncode` succeeds if and only if pixels are given, both spans can be made, the runner, basic info and colour encoding calls succeed and the output step did not ask for more output |
| `EncoderJniNative.DoEncodeNonFatal` | tools/jni/org/jpeg/jpegxl/wrapper/encoder_jni.cc:108-114 | `DoEncode` fails non-fatally if and only if every earlier step succeeded and the output step asked for more output |
| `EncoderJniNative.FormatOutOfRange` | tools/jni/org/jpeg/jpegxl/wrapper/encoder_jni.cc:142-145 | the `size_t` reading of a `jint` exceeds `kLastPixelFormat` (3) exactly when the `jint` is negative or above 3 |
| `EncoderJniNative.NativeStatus` | tools/jni/org/jpeg/jpegxl/wrapper/encoder_jni.cc:136-152 | for a format in 0..3 the native status is `DoEncode`'s; for any other `jint`, negative ones included, it is the "Unrecognized pixel format" failure |
| `EncoderJniNative.FormatGuard` | tools/jni/org/jpeg/jpegxl/wrapper/encoder_jni.cc:140-152 | the native status is the "Unrecognized pixel format" failure if and only if the format is outside 0..3; inside that range it is `DoEncode`'s status |
| `EncoderJniNative.NativeGetJxlStream` | tools/jni/org/jpeg/jpegxl/wrapper/encoder_jni.cc:130-156 | afterwards `ctx[0]` holds `ToStatusCode` of the status for the format that was in `ctx[0]`, and no other slot changes |
| `Jvm.IntToDecimal` | tools/jni/org/jpeg/jpegxl/wrapper/EncoderJni.java:27 | `%d` of an integer: a minus sign exactly for a negative number, followed by at least one ASCII digit and no leading zero |
| `Jvm.NatToDecimal` | tools/jni/org/jpeg/jpegxl/wrapper/EncoderJni.java:27 | the rendering is a non-empty string of ASCII digits without a leading zero |
| `Jvm.IntToDecimalRoundTrip` | tools/jni/org/jpeg/jpegxl/wrapper/EncoderJni.java:27 | reading the `%d` rendering back gives the number |
| `Jvm.IntToDecimalInjective` | tools/jni/org/jpeg/jpegxl/wrapper/EncoderJni.java:27 | distinct numbers render differently |
| `Jvm.Buffer.AllocateDirect` | tools/jni/org/jpeg/jpegxl/wrapper/Encoder.java:29-30 | a new buffer is direct and has exactly the requested capacity |
| `EncoderJni.MakeStatus` | tools/jni/org/jpeg/jpegxl/wrapper/EncoderJni.java:18-29 | succeeds if and only if the code is 0, -1 or 1, decoding it through the wire table; every other code throws `IllegalStateException` with "Unknown status code: " and the code |
| `EncoderJni.MakeStatusDecodesWireCode` | tools/jni/org/jpeg/jpegxl/wrapper/EncoderJni.java:18-25 | 0 decodes to OK, -1 to INVALID_STREAM, 1 to NOT_ENOUGH_INPUT |
| `EncoderJni.UnknownStatusMessage` | tools/jni/org/jpeg/jpegxl/wrapper/EncoderJni.java:27 | the message starts with "Unknown status code: " and the rest reads back as the code |
| `EncoderJni.UnknownStatusMessageInjective` | tools/jni/org/jpeg/jpegxl/wrapper/EncoderJni.java:26-27 | two unknown codes never give the same exception message |
| `EncoderJni.MakeStreamInfo` | tools/jni/org/jpeg/jpegxl/wrapper/EncoderJni.java:31-40 | slot 0 is decoded as the status and slots 1-5 are copied positionally to width, height, pixelsSize, iccSize, alphaBits; an empty array, an unknown code or a short array throws at the first slot read that fails |
| `EncoderJni.StreamInfoRoundTrip` | tools/jni/org/jpeg/jpegxl/wrapper/EncoderJni.java:31-40 | unpacking the six-slot packing of any `StreamInfo` gives it back |
| `EncoderJni.StreamInfoUnpackRoundTrip` | tools/jni/org/jpeg/jpegxl/wrapper/EncoderJni.java:31-40 | a six-slot context that unpacks is the packing of what it unpacks to |
| `EncoderJni.BasicInfoContext` | tools/jni/org/jpeg/jpegxl/wrapper/EncoderJni.java:68-74 | the six-slot context `getBasicInfo` fills is the packing of the stream info with status OK (INVALID_STREAM without a format), the caller's width and height, 8, 0 and 0 |
| `EncoderJni.BasicInfoDecodes` | tools/jni/org/jpeg/jpegxl/wrapper/EncoderJni.java:68-76 | the context `getBasicInfo` fills always unpacks, to OK (INVALID_STREAM without a format), the given width and height, 8, 0 and 0 |
| `EncoderJni.GetBasicInfo` | tools/jni/org/jpeg/jpegxl/wrapper/EncoderJni.java:63-77 | a null pixels buffer throws `NullPointerException`, one that is not direct throws `IllegalArgumentException` "PixelData must be direct buffer"; otherwise the result is the fixed info above, computed without native code |
| `EncoderJni.GetJxlStream` | tools/jni/org/jpeg/jpegxl/wrapper/EncoderJni.java:44-58 | data, pixels and icc are checked in that order, each null one throwing `NullPointerException` and each non-direct one `IllegalArgumentException` with its own message, with no native call; a missing format throws `NullPointerException`; otherwise exactly one native call is made with the format ordinal in the context, and the result is `makeStatus` of the value it leaves there |
| `Encoder.QueryFault` | tools/jni/org/jpeg/jpegxl/wrapper/Encoder.java:22-28 | the query is accepted if and only if the status is OK and width, height, pixelsSize and iccSize are non-negative; a non-OK status gives "Encoding failed", otherwise a rejection is "JNI has returned negative size" |
| `Encoder.AlphaBitsUnchecked` | tools/jni/org/jpeg/jpegxl/wrapper/Encoder.java:25-28 | changing alphaBits never changes the outcome of the checks |
| `Encoder.BasicInfoQueryFault` | tools/jni/org/jpeg/jpegxl/wrapper/Encoder.java:19-28 | for the GRAY query the status is OK, the sizes are 8 and 0, and the checks fail exactly when width or height is negative |
| `Encoder.Encode` | tools/jni/org/jpeg/jpegxl/wrapper/Encoder.java:17-36 | a null or non-direct `pixels`, or a negative width or height, fails with no buffer allocated and no native call; otherwise one native call receives the GRAY ordinal, the caller's `pixels` and two fresh distinct direct buffers of capacities 8 and 0, which are the only buffers it allocates, an unknown status code propagates, a non-OK status gives "Encoding failed", and success returns the caller's width, height and `pixels`, the fresh ICC buffer and GRAY |
| `Boundary.StatusProtocolTotal` | tools/jni/org/jpeg/jpegxl/wrapper/encoder_jni.cc:39-43 | decoding `ToStatusCode` of any native status with `makeStatus` never throws: success becomes OK, a fatal failure INVALID_STREAM, the non-fatal one NOT_ENOUGH_INPUT |
| `Boundary.NativeReplyDecodes` | tools/jni/org/jpeg/jpegxl/wrapper/encoder_jni.cc:140-155 | whatever format and libjxl replies, the code written back by `nativeGetJxlStream` decodes without an exception; it is OK exactly when the format is in 0..3 and `DoEncode` succeeded, and INVALID_STREAM for a negative format |

## Left out

- The libjxl encoder calls in `DoEncode` (encoder creation, parallel runner, basic info, colour encoding, output processing): foreign library code, modelled only by the status each call replies with (`LibjxlReplies`).
- The encoded bytes: what the native side writes into the data and ICC buffers is not modelled, so buffers carry no contents.
- The JNI environment calls (`GetDirectBufferAddress`, `GetDirectBufferCapacity`, `Get/SetIntArrayRegion`): the first two are the address and capacity carried by a `JObject`, the last two are reads and writes of an `int32` array.
- EncoderJniNative.NativeGetJxlStream: requires a context of at least one slot; a shorter one makes JNI raise a pending Java exception, which is not modelled.
- Linking: `encoder_jni.cc` defines `Java_org_jpeg_jpegxl_wrapper_DecoderJni_nativeGetJxlStream`, while `EncoderJni.nativeGetJxlStream` binds to the `EncoderJni` name declared in encoder_jni.h. That mismatch is a linkage issue, so the Java side takes the native method as an oracle (`native`) and the two sides are composed on values in `Boundary`.
- `nativeGetBasicInfo` (encoder_jni.cc, lines 166-170): an empty stub that nothing calls.
- `PixelFormat`, `Status`, `StreamInfo` and `ImageData` are not part of this model as source files; they are minimal datatypes here. The ordinal of `PixelFormat.GRAY` is not known, so `Encoder.Encode` takes it as the parameter `gray`.
- `jxl::Status` (lib/jxl/base/status.h is not part of this model): success, fatal `kGenericError` (from `JXL_FAILURE` and a bare `false`) and non-fatal `kNotEnoughBytes`.
- EncoderJniNative.JxlStatus: a `jxl::Status` carries only its code, while the model's `reason` labels the return site that failed; lemmas that tell failures apart by `reason` (`NullPixelsFailsFirst`, `DataBufferCheckUnreachable`, `FormatGuard`, `FormatReasonDistinct`) speak about which return site was taken, which the program itself cannot observe once `ToStatusCode` has discarded everything but the code.
- Jvm.IntToDecimal: assumes a default locale that formats `%d` with ASCII digits and `-`.
- Jvm.Buffer.AllocateDirect: requires a non-negative capacity; the JDK would throw for a negative one, which `encode` never passes.
- `fprintf` logging and the `Defer` cleanup in `DoEncode`: I/O and resource release.
- EncoderTest.java: library loading is I/O; its check that the ICC profile holds 300 to 1000 bytes cannot pass against `encode` as written, whose ICC buffer always has capacity 0 (`Encoder.Encode`).
- Concurrency: calls are modelled as single-threaded and synchronous.
