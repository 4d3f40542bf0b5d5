/** The public facade (Encoder.java): one-shot encoding as measure, check,
    allocate, fill. */
module Encoder {
  import opened Wrappers
  import opened Jvm
  import opened EncoderJni

  /** The result of a successful `encode`. */
  datatype ImageData = ImageData(width: int32, height: int32, pixels: Buffer, icc: Buffer, format: PixelFormat)

  /** The checks `encode` makes on the queried `StreamInfo` before it
      allocates anything: the status first, then the four sizes. The alpha
      bits are not checked. */
  function QueryFault(info: StreamInfo): (fault: Option<Exception>)
    ensures fault.None? <==>
              info.status == OK && info.width >= 0 && info.height >= 0 &&
              info.pixelsSize >= 0 && info.iccSize >= 0
    ensures info.status != OK ==> fault == Some(IllegalStateException("Encoding failed"))
    ensures info.status == OK && fault.Some? ==>
              fault == Some(IllegalStateException("JNI has returned negative size"))
  {
    if info.status != OK then Some(IllegalStateException("Encoding failed"))
    else if info.width < 0 || info.height < 0 || info.pixelsSize < 0 || info.iccSize < 0 then
      Some(IllegalStateException("JNI has returned negative size"))
    else None
  }

  /** `encode(pixels, width, height)`. `gray` stands for `PixelFormat.GRAY`,
      whose ordinal is not fixed here; `native` is what the native stream
      call leaves in its context slot, and `calls` lists the crossings into
      native code. */
  method Encode(pixels: Buffer?, width: int32, height: int32, gray: PixelFormat, native: NativeCall -> int32)
    returns (r: Result<ImageData, Exception>, calls: seq<NativeCall>, ghost allocs: seq<Buffer>)
    ensures pixels == null ==> r == Err(NullPointerException) && calls == [] && allocs == []
    ensures pixels != null && !pixels.isDirect ==>
              r == Err(IllegalArgumentException("PixelData must be direct buffer")) && calls == [] && allocs == []
    ensures pixels != null && pixels.isDirect && (width < 0 || height < 0) ==>
              r == Err(IllegalStateException("JNI has returned negative size")) && calls == [] && allocs == []
    ensures pixels != null && pixels.isDirect && width >= 0 && height >= 0 ==>
              && |calls| == 1
              && allocs == [calls[0].data, calls[0].icc]
              && calls[0].context == gray.ordinal
              && calls[0].pixels == pixels
              && fresh(calls[0].data) && calls[0].data.isDirect && calls[0].data.capacity == 8
              && fresh(calls[0].icc) && calls[0].icc.isDirect && calls[0].icc.capacity == 0
              && calls[0].data != calls[0].icc
              && r == match MakeStatus(native(calls[0]))
                      case Err(e) => Err(e)
                      case Ok(status) =>
                        if status != OK then Err(IllegalStateException("Encoding failed"))
                        else Ok(ImageData(width, height, pixels, calls[0].icc, gray))
  {
    calls, allocs := [], [];
    var pixelFormat := gray;
    var basicInfo := GetBasicInfo(pixels, width, height, Some(pixelFormat));
    if basicInfo.Err? {
      return Err(basicInfo.error), calls, allocs;
    }
    var info := basicInfo.value;
    var fault := QueryFault(info);
    if fault.Some? {
      return Err(fault.value), calls, allocs;
    }
    var data := new Buffer.AllocateDirect(info.pixelsSize);
    allocs := allocs + [data];
    var icc := new Buffer.AllocateDirect(info.iccSize);
    allocs := allocs + [icc];
    var status;
    status, calls := GetJxlStream(data, pixels, icc, Some(pixelFormat), native);
    if status.Err? {
      return Err(status.error), calls, allocs;
    }
    if status.value != OK {
      return Err(IllegalStateException("Encoding failed")), calls, allocs;
    }
    r := Ok(ImageData(info.width, info.height, pixels, icc, pixelFormat));
  }

  // Properties of the facade.

  /** The alpha bits never decide whether the query is accepted. */
  lemma AlphaBitsUnchecked(info: StreamInfo, alphaBits: int32)
    ensures QueryFault(info.(alphaBits := alphaBits)) == QueryFault(info)
  {
  }

  /** For the query `encode` makes (a format is always given), the status
      check always passes, and the size check fails exactly for a negative
      width or height: the sizes are the fixed 8 and 0. */
  lemma BasicInfoQueryFault(width: int32, height: int32, format: PixelFormat)
    ensures var info := MakeStreamInfo(BasicInfoContext(width, height, Some(format)));
            && info.Ok?
            && info.value.status == OK
            && (QueryFault(info.value).None? <==> width >= 0 && height >= 0)
            && info.value.pixelsSize == 8 && info.value.iccSize == 0
  {
    BasicInfoDecodes(width, height, Some(format));
  }
}
