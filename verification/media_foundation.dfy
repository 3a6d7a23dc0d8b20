/** The parts of Media Foundation the H.264 wrapper talks to, as values.

    Status codes become a datatype, the transform's answers to queries become
    `Answer` values, and memory buffers are described by their size,
    alignment and contents only.
 */
module MediaFoundation {
  import opened Machine

  /** The status codes the wrapper distinguishes.  `Ok` is S_OK, `Fail` is
      E_FAIL, `NullPointer` is E_POINTER; the three transform codes are
      MF_E_TRANSFORM_NEED_MORE_INPUT, MF_E_TRANSFORM_STREAM_CHANGE and
      MF_E_NOTACCEPTING.  Every other code is kept by its success or failure
      class and its number. */
  datatype HResult =
    | Ok
    | OtherSuccess(code: nat)
    | Fail
    | NullPointer
    | NeedMoreInput
    | StreamChange
    | NotAccepting
    | OtherFailure(code: nat)
  {
    /** SUCCEEDED(hr) */
    predicate Succeeded() {
      Ok? || OtherSuccess?
    }

    /** FAILED(hr) */
    predicate Failed() {
      !Succeeded()
    }
  }

  type FailureCode = hr: HResult | hr.Failed() witness Fail

  /** The answer to a query on the transform or on a media type: a value, or
      the failure code the call returned. */
  datatype Answer<T> = Answered(value: T) | QueryFailed(hr: FailureCode)

  datatype Option<T> = None | Some(value: T)

  /** Reading a DWORD into an `int32_t`, two's complement. */
  function DwordAsInt32(x: Dword): (i: int)
    ensures -0x8000_0000 <= i < 0x8000_0000
    ensures x < 0x8000_0000 ==> i == x
  {
    if x < 0x8000_0000 then x else x - Uint32Modulus
  }

  /** Passing an `int32_t` where a DWORD is expected. */
  function Int32AsDword(i: int): Dword
    requires -0x8000_0000 <= i < 0x8000_0000
  {
    if i >= 0 then i else i + Uint32Modulus
  }

  /** Storing a buffer size in an `int32_t` and handing it back as a DWORD
      loses nothing. */
  lemma DwordInt32RoundTrip(x: Dword)
    ensures Int32AsDword(DwordAsInt32(x)) == x
  {
  }

  datatype VideoSubtype = I420 | OtherSubtype(guid: nat)

  datatype IntRect = IntRect(x: int, y: int, width: int, height: int)

  datatype FrameSize = FrameSize(width: Dword, height: Dword)

  /** One output media type the transform offers, with everything the
      wrapper learns from it: its subtype, the transform's answer to
      SetOutputType with it, its picture region, its frame size, and the
      stride GetDefaultStride writes for it (`None` when it writes nothing). */
  datatype OfferedType = OfferedType(
    subtype: Answer<VideoSubtype>,
    setOutputType: HResult,
    pictureRegion: Answer<IntRect>,
    frameSize: Answer<FrameSize>,
    defaultStride: Option<int>
  )

  /** The cbSize and cbAlignment of MFT_INPUT_STREAM_INFO / MFT_OUTPUT_STREAM_INFO. */
  datatype StreamInfo = StreamInfo(cbSize: Dword, cbAlignment: Dword)

  /** A buffer from MFCreateAlignedMemoryBuffer: its maximum length, the
      alignment argument it was created with, and its valid contents (whose
      length is the buffer's current length). */
  datatype AlignedBuffer = AlignedBuffer(maxLength: Dword, alignment: Dword, contents: seq<Byte>)

  /** The alignment argument for a stream whose required alignment is
      `cbAlignment`: one less than it when it exceeds 1, otherwise 0. */
  function AlignmentArgument(cbAlignment: Dword): (a: Dword)
    ensures cbAlignment > 1 ==> a + 1 == cbAlignment
    ensures cbAlignment <= 1 ==> a == 0
  {
    if cbAlignment > 1 then cbAlignment - 1 else 0
  }
}
