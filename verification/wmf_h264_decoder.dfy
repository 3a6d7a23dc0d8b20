/** Control logic of the wrapper around the Windows Media Foundation H.264
    decoder transform (MFT).

    The transform is an oracle: every answer it gives is an input of the
    operation that asks.  `ProcessOutput` answers come from a finite script
    of which each attempt consumes one entry, so the retry after a stream
    change terminates by the length of the script.
 */
module WMFH264Decoder {
  import opened Machine
  import opened MediaFoundation

  /** The frame geometry the wrapper caches from the negotiated output type. */
  datatype Geometry = Geometry(width: Dword, height: Dword, pictureRegion: IntRect, stride: int)

  /** The wrapper's own state: whether a transform was created, the stream
      requirements read during Init, and the cached geometry. */
  datatype Decoder = Decoder(hasTransform: bool, inputInfo: StreamInfo, outputInfo: StreamInfo, geometry: Geometry)

  /** A freshly constructed wrapper: no transform, zeroed stream info, and
      whatever geometry the fields happen to hold. */
  function NewDecoder(g: Geometry): (d: Decoder)
    ensures !d.hasTransform
    ensures d.inputInfo == StreamInfo(0, 0) && d.outputInfo == StreamInfo(0, 0)
    ensures d.geometry == g
  {
    Decoder(false, StreamInfo(0, 0), StreamInfo(0, 0), g)
  }

  /* ---------------------------------------------------------------------
     Frame geometry and output-type selection
     --------------------------------------------------------------------- */

  /** Reads the picture region and the frame size of an output type and,
      only when both reads succeed, replaces the cached geometry. */
  function ConfigureVideoFrameGeometry(g: Geometry, t: OfferedType): (r: (HResult, Geometry))
    ensures r.0 == Ok <==> t.pictureRegion.Answered? && t.frameSize.Answered?
    ensures r.0 != Ok ==> r.0.Failed() && r.1 == g
    ensures t.pictureRegion.QueryFailed? ==> r.0 == t.pictureRegion.hr
    ensures t.pictureRegion.Answered? && t.frameSize.QueryFailed? ==> r.0 == t.frameSize.hr
    ensures r.0 == Ok ==>
              && r.1.width == t.frameSize.value.width
              && r.1.height == t.frameSize.value.height
              && r.1.pictureRegion == t.pictureRegion.value
              && (t.defaultStride.Some? ==> r.1.stride == t.defaultStride.value)
              && (t.defaultStride.None? ==> r.1.stride == g.stride)
  {
    match t.pictureRegion
    case QueryFailed(hr) => (hr, g)
    case Answered(region) =>
      match t.frameSize
      case QueryFailed(hr) => (hr, g)
      case Answered(size) =>
        var stride := match t.defaultStride case Some(s) => s case None => g.stride;
        (Ok, Geometry(size.width, size.height, region, stride))
  }

  predicate IsI420(t: OfferedType) {
    t.subtype == Answered(I420)
  }

  /** The index of the first offered type at or after `from` whose subtype
      reads as I420. */
  function FirstI420From(offered: seq<OfferedType>, from: nat): (r: Option<nat>)
    requires from <= |offered|
    ensures r.Some? ==> from <= r.value < |offered| && IsI420(offered[r.value])
    ensures r.Some? ==> forall j :: from <= j < r.value ==> !IsI420(offered[j])
    ensures r.None? ==> forall j :: from <= j < |offered| ==> !IsI420(offered[j])
    decreases |offered| - from
  {
    if from == |offered| then None
    else if IsI420(offered[from]) then Some(from)
    else FirstI420From(offered, from + 1)
  }

  function FirstI420(offered: seq<OfferedType>): Option<nat> {
    FirstI420From(offered, 0)
  }

  /** The status SetDecoderOutputType returns for a list of offered types;
      it does not depend on the cached geometry. */
  function OutputTypeStatus(offered: seq<OfferedType>): HResult {
    match FirstI420(offered)
    case None => Fail
    case Some(i) =>
      if offered[i].setOutputType.Failed() then offered[i].setOutputType
      else if offered[i].pictureRegion.QueryFailed? then offered[i].pictureRegion.hr
      else if offered[i].frameSize.QueryFailed? then offered[i].frameSize.hr
      else Ok
  }

  /** The loop of SetDecoderOutputType from type index `index` on: types
      whose subtype cannot be read are skipped, the first I420 type is set
      on the transform and its geometry configured, and running out of
      types is E_FAIL. */
  function SetDecoderOutputTypeFrom(g: Geometry, offered: seq<OfferedType>, index: nat): (r: (HResult, Geometry))
    requires index <= |offered|
    ensures FirstI420From(offered, index).None? ==> r == (Fail, g)
    ensures FirstI420From(offered, index).Some? ==>
              var t := offered[FirstI420From(offered, index).value];
              && (t.setOutputType.Failed() ==> r == (t.setOutputType, g))
              && (t.setOutputType.Succeeded() ==> r == ConfigureVideoFrameGeometry(g, t))
    decreases |offered| - index
  {
    if index == |offered| then (Fail, g)
    else
      var t := offered[index];
      match t.subtype
      case QueryFailed(_) => SetDecoderOutputTypeFrom(g, offered, index + 1)
      case Answered(subtype) =>
        if subtype != I420 then SetDecoderOutputTypeFrom(g, offered, index + 1)
        else if t.setOutputType.Failed() then (t.setOutputType, g)
        else ConfigureVideoFrameGeometry(g, t)
  }

  /** Negotiates the output type: commits the first offered I420 type, and
      changes the cached geometry only when it succeeds. */
  function SetDecoderOutputType(g: Geometry, offered: seq<OfferedType>): (r: (HResult, Geometry))
    ensures FirstI420(offered).None? ==> r == (Fail, g)
    ensures FirstI420(offered).Some? ==>
              var t := offered[FirstI420(offered).value];
              && (t.setOutputType.Failed() ==> r == (t.setOutputType, g))
              && (t.setOutputType.Succeeded() ==> r == ConfigureVideoFrameGeometry(g, t))
    ensures r.0 == OutputTypeStatus(offered)
    ensures r.0 == Ok || (r.0.Failed() && r.1 == g)
  {
    SetDecoderOutputTypeFrom(g, offered, 0)
  }

  /* ---------------------------------------------------------------------
     Messages to the transform
     --------------------------------------------------------------------- */

  datatype MftMessage = NotifyBeginStreaming | NotifyStartOfStream | CommandFlush

  /** Sends one message; `response` is what ProcessMessage returns.  Without
      a transform nothing is sent and the result is E_POINTER. */
  function SendMftMessage(d: Decoder, msg: MftMessage, response: HResult): (r: (HResult, seq<MftMessage>))
    ensures !d.hasTransform ==> r == (NullPointer, [])
    ensures d.hasTransform ==> r.1 == [msg]
    ensures d.hasTransform && response.Failed() ==> r.0 == response
    ensures d.hasTransform && response.Succeeded() ==> r.0 == Ok
  {
    if !d.hasTransform then (NullPointer, [])
    else if response.Failed() then (response, [msg])
    else (Ok, [msg])
  }

  /** Flushes the transform: exactly one flush message, its failure passed on. */
  function Reset(d: Decoder, flushResponse: HResult): (r: (HResult, seq<MftMessage>))
    ensures d.hasTransform ==> r.1 == [CommandFlush]
    ensures d.hasTransform ==> (r.0 == Ok <==> flushResponse.Succeeded())
    ensures d.hasTransform && flushResponse.Failed() ==> r.0 == flushResponse
    ensures !d.hasTransform ==> r.0 == NullPointer && r.1 == []
  {
    SendMftMessage(d, CommandFlush, flushResponse)
  }

  /* ---------------------------------------------------------------------
     Init
     --------------------------------------------------------------------- */

  datatype InitStep =
    | SetInputType
    | SetOutputType
    | BeginStreaming
    | StartOfStream
    | GetInputStreamInfo
    | GetOutputStreamInfo

  /** The steps of Init after the transform is created, in the order they run. */
  const InitOrder: seq<InitStep> :=
    [SetInputType, SetOutputType, BeginStreaming, StartOfStream, GetInputStreamInfo, GetOutputStreamInfo]

  /** Everything Init learns from outside: whether the decoder DLL, its class
      factory and the transform instance could all be obtained; the results of
      the calls SetDecoderInputType makes (creating the media type, setting
      its major type, subtype and interlace mode, and setting it on the
      transform); the offered output types; the answers to the two stream
      messages; and the two stream-info queries. */
  datatype InitOracle = InitOracle(
    transformCreated: bool,
    inputTypeCalls: seq<HResult>,
    offered: seq<OfferedType>,
    beginStreaming: HResult,
    startOfStream: HResult,
    inputInfo: Answer<StreamInfo>,
    outputInfo: Answer<StreamInfo>
  )

  /** The result of a run of calls that each stop the run on failure: the
      first failure, or S_OK when there is none. */
  function FirstFailure(hrs: seq<HResult>): (r: HResult)
    ensures r == Ok <==> forall i :: 0 <= i < |hrs| ==> hrs[i].Succeeded()
    ensures r != Ok ==> exists i :: 0 <= i < |hrs| && hrs[i] == r && r.Failed()
                          && forall j :: 0 <= j < i ==> hrs[j].Succeeded()
    decreases |hrs|
  {
    if hrs == [] then Ok
    else if hrs[0].Failed() then hrs[0]
    else
      var rest := FirstFailure(hrs[1..]);
      if rest != Ok then
        var i :| 0 <= i < |hrs[1..]| && hrs[1..][i] == rest && rest.Failed()
                 && forall j :: 0 <= j < i ==> hrs[1..][j].Succeeded();
        assert hrs[i + 1] == rest;
        rest
      else
        rest
  }

  /** The status a step of Init returns, given a created transform. */
  function StepStatus(o: InitOracle, step: InitStep): HResult {
    match step
    case SetInputType => FirstFailure(o.inputTypeCalls)
    case SetOutputType => OutputTypeStatus(o.offered)
    case BeginStreaming => if o.beginStreaming.Failed() then o.beginStreaming else Ok
    case StartOfStream => if o.startOfStream.Failed() then o.startOfStream else Ok
    case GetInputStreamInfo => if o.inputInfo.QueryFailed? then o.inputInfo.hr else Ok
    case GetOutputStreamInfo => if o.outputInfo.QueryFailed? then o.outputInfo.hr else Ok
  }

  /** Runs one step of Init against the oracle. */
  function RunInitStep(d: Decoder, o: InitOracle, step: InitStep): (r: (HResult, Decoder))
    requires d.hasTransform
    ensures r.0 == StepStatus(o, step)
    ensures r.0.Succeeded() ==> r.0 == Ok
    ensures r.1.hasTransform
    ensures r.0.Failed() ==> r.1 == d
  {
    match step
    case SetInputType => (FirstFailure(o.inputTypeCalls), d)
    case SetOutputType =>
      var (hr, g) := SetDecoderOutputType(d.geometry, o.offered);
      (hr, d.(geometry := g))
    case BeginStreaming => (SendMftMessage(d, NotifyBeginStreaming, o.beginStreaming).0, d)
    case StartOfStream => (SendMftMessage(d, NotifyStartOfStream, o.startOfStream).0, d)
    case GetInputStreamInfo =>
      (match o.inputInfo
       case QueryFailed(hr) => (hr, d)
       case Answered(info) => (Ok, d.(inputInfo := info)))
    case GetOutputStreamInfo =>
      (match o.outputInfo
       case QueryFailed(hr) => (hr, d)
       case Answered(info) => (Ok, d.(outputInfo := info)))
  }

  /** The outcome of Init: its status, the steps it ran, and the new state. */
  datatype InitResult = InitResult(hr: HResult, performed: seq<InitStep>, decoder: Decoder)

  /** Runs `steps` in order and stops after the first one that fails. */
  function RunInitSteps(d: Decoder, o: InitOracle, steps: seq<InitStep>): (r: InitResult)
    requires d.hasTransform
    ensures r.performed <= steps
    ensures r.hr == Ok || r.hr.Failed()
    ensures r.hr == Ok <==> r.performed == steps && forall i :: 0 <= i < |steps| ==> StepStatus(o, steps[i]).Succeeded()
    ensures forall i :: 0 <= i < |r.performed| - 1 ==> StepStatus(o, r.performed[i]).Succeeded()
    ensures r.hr.Failed() ==> |r.performed| >= 1 && r.hr == StepStatus(o, r.performed[|r.performed| - 1])
    ensures r.decoder.hasTransform
    decreases |steps|
  {
    if steps == [] then InitResult(Ok, [], d)
    else
      var (hr, d1) := RunInitStep(d, o, steps[0]);
      if hr.Failed() then InitResult(hr, [steps[0]], d1)
      else
        var rest := RunInitSteps(d1, o, steps[1..]);
        InitResult(rest.hr, [steps[0]] + rest.performed, rest.decoder)
  }

  /** Creates the transform and then configures it: input type, output type,
      begin-streaming, start-of-stream, input and output stream info, in that
      order, stopping at the first failure.  Failing to create the
      transform is E_FAIL whatever the underlying error. */
  function Init(d: Decoder, o: InitOracle): (r: InitResult)
    ensures r.performed <= InitOrder
    ensures !o.transformCreated ==> r == InitResult(Fail, [], d)
    ensures o.transformCreated ==> r.decoder.hasTransform
    ensures r.hr == Ok || r.hr.Failed()
    ensures r.hr == Ok <==> o.transformCreated && r.performed == InitOrder
                            && forall i :: 0 <= i < |InitOrder| ==> StepStatus(o, InitOrder[i]).Succeeded()
    ensures forall i :: 0 <= i < |r.performed| - 1 ==> StepStatus(o, r.performed[i]).Succeeded()
    ensures o.transformCreated && r.hr.Failed() ==>
              |r.performed| >= 1 && r.hr == StepStatus(o, r.performed[|r.performed| - 1])
  {
    if !o.transformCreated then InitResult(Fail, [], d)
    else RunInitSteps(d.(hasTransform := true), o, InitOrder)
  }

  /* ---------------------------------------------------------------------
     Input
     --------------------------------------------------------------------- */

  /** An input sample: one aligned buffer holding the data, and its times. */
  datatype InputSample = InputSample(buffer: AlignedBuffer, timeUs: int, durationUs: int)

  /** Wraps `data` in a sample.  The buffer is at least as large as both the
      stream's minimum size and the data, is created with the stream's
      alignment argument, and holds exactly the data.  `foreign` is the
      result of the memory and sample calls (the first failure, if any). */
  function CreateInputSample(info: StreamInfo, data: seq<Byte>, timeUs: int, durationUs: int,
                             foreign: HResult): (r: (HResult, Option<InputSample>))
    requires |data| < Uint32Modulus
    ensures foreign.Failed() ==> r == (foreign, None)
    ensures foreign.Succeeded() ==> r.0 == Ok && r.1.Some?
    ensures r.1.Some? ==>
              var b := r.1.value.buffer;
              && b.maxLength >= |data| && b.maxLength >= info.cbSize
              && (b.maxLength == |data| || b.maxLength == info.cbSize)
              && b.alignment == AlignmentArgument(info.cbAlignment)
              && b.contents == data
              && r.1.value.timeUs == timeUs && r.1.value.durationUs == durationUs
  {
    if foreign.Failed() then (foreign, None)
    else
      var size: Dword := if info.cbSize >= |data| then info.cbSize else |data|;
      var bufferSize := DwordAsInt32(size);
      DwordInt32RoundTrip(size);
      var buffer := AlignedBuffer(Int32AsDword(bufferSize), AlignmentArgument(info.cbAlignment), data);
      (Ok, Some(InputSample(buffer, timeUs, durationUs)))
  }

  /** The outcome of Input: its status and the sample handed to ProcessInput. */
  datatype InputResult = InputResult(hr: HResult, submitted: Option<InputSample>)

  /** Feeds one access unit.  NOTACCEPTING from the transform is returned as
      is; any other failure is passed on; anything else is S_OK. */
  function Input(d: Decoder, data: seq<Byte>, timeUs: int, durationUs: int,
                 foreign: HResult, processInput: HResult): (r: InputResult)
    requires d.hasTransform
    requires |data| < Uint32Modulus
    ensures foreign.Failed() ==> r == InputResult(foreign, None)
    ensures foreign.Succeeded() ==> r.submitted.Some? && r.submitted.value.buffer.contents == data
    ensures foreign.Succeeded() ==> r.submitted == CreateInputSample(d.inputInfo, data, timeUs, durationUs, foreign).1
    ensures foreign.Succeeded() && processInput == NotAccepting ==> r.hr == NotAccepting
    ensures foreign.Succeeded() && processInput.Failed() && processInput != NotAccepting ==> r.hr == processInput
    ensures foreign.Succeeded() && processInput.Succeeded() ==> r.hr == Ok
    ensures r.hr == Ok <==> foreign.Succeeded() && processInput.Succeeded()
  {
    var (hr, sample) := CreateInputSample(d.inputInfo, data, timeUs, durationUs, foreign);
    if hr.Failed() || sample.None? then InputResult(hr, None)
    else if processInput == NotAccepting then InputResult(NotAccepting, sample)
    else if processInput.Failed() then InputResult(processInput, sample)
    else InputResult(Ok, sample)
  }

  /* ---------------------------------------------------------------------
     Output
     --------------------------------------------------------------------- */

  /** One attempt at getting output.  Either creating the output sample
      fails, and ProcessOutput is not called, or the transform answers
      ProcessOutput: its status, the types it offers for renegotiation when
      that status is a stream change, and what it wrote into the sample's
      buffer. */
  datatype OutputStep =
    | SampleCreationFailed(hr: FailureCode)
    | Processed(processOutput: HResult, offeredAfterChange: seq<OfferedType>, pixels: seq<Byte>)

  predicate IsStreamChange(s: OutputStep) {
    s.Processed? && s.processOutput == StreamChange
  }

  /** The transform's answers end with something other than a stream
      change, so the retry after stream changes stops within the script. */
  predicate Settles(script: seq<OutputStep>) {
    |script| > 0 && !IsStreamChange(script[|script| - 1])
  }

  datatype OutputSample = OutputSample(buffer: AlignedBuffer)

  /** The buffer of an output sample: the stream's size (through an
      `int32_t`, which loses nothing), the stream's alignment argument, and
      the bytes the transform wrote. */
  function OutputBuffer(info: StreamInfo, pixels: seq<Byte>): (b: AlignedBuffer)
    ensures b.maxLength == info.cbSize
    ensures b.alignment == AlignmentArgument(info.cbAlignment)
    ensures b.contents == pixels
  {
    DwordInt32RoundTrip(info.cbSize);
    AlignedBuffer(Int32AsDword(DwordAsInt32(info.cbSize)), AlignmentArgument(info.cbAlignment), pixels)
  }

  /** The cached geometry after renegotiating the output type on every
      stream change among `steps`, in order. */
  function Renegotiated(g: Geometry, steps: seq<OutputStep>): Geometry
    decreases |steps|
  {
    if steps == [] then g
    else
      var g' := if IsStreamChange(steps[0]) then SetDecoderOutputType(g, steps[0].offeredAfterChange).1 else g;
      Renegotiated(g', steps[1..])
  }

  lemma RenegotiatedOne(g: Geometry, script: seq<OutputStep>)
    requires |script| >= 1
    ensures Renegotiated(g, script[..1]) ==
            if IsStreamChange(script[0]) then SetDecoderOutputType(g, script[0].offeredAfterChange).1 else g
  {
    assert script[..1][1..] == [];
  }

  lemma RenegotiatedPrefix(g: Geometry, script: seq<OutputStep>, n: nat)
    requires 1 <= n <= |script|
    ensures Renegotiated(g, script[..n]) ==
            Renegotiated(if IsStreamChange(script[0]) then SetDecoderOutputType(g, script[0].offeredAfterChange).1 else g,
                         script[1..][..n - 1])
  {
    assert script[..n][0] == script[0] && script[..n][1..] == script[1..][..n - 1];
  }

  /** The outcome of GetOutputSample / Output: status, sample, new state, and
      the transform answers not yet consumed. */
  datatype OutputResult = OutputResult(hr: HResult, sample: Option<OutputSample>, decoder: Decoder, rest: seq<OutputStep>)

  /** Asks the transform for one decoded frame.  On a stream change the output
      type is renegotiated (a failure there is returned) and the request is
      made again; NEED_MORE_INPUT is returned as is; any other failure is
      returned; otherwise the filled sample is returned. */
  function GetOutputSample(d: Decoder, script: seq<OutputStep>): (r: OutputResult)
    requires d.hasTransform
    requires Settles(script)
    ensures |r.rest| < |script| && r.rest == script[|script| - |r.rest|..]
    ensures forall j :: 0 <= j < |script| - |r.rest| - 1 ==>
              IsStreamChange(script[j]) && OutputTypeStatus(script[j].offeredAfterChange) == Ok
    ensures var last := script[|script| - |r.rest| - 1];
            && (last.SampleCreationFailed? ==> r.hr == last.hr && r.sample.None?)
            && (IsStreamChange(last) ==>
                  r.hr == OutputTypeStatus(last.offeredAfterChange) && r.hr.Failed() && r.sample.None?)
            && (last.Processed? && last.processOutput == NeedMoreInput ==>
                  r.hr == NeedMoreInput && r.sample.None?)
            && ((last.Processed? && last.processOutput.Failed() &&
                 last.processOutput !in {NeedMoreInput, StreamChange}) ==> r.hr == last.processOutput && r.sample.None?)
            && (last.Processed? && last.processOutput.Succeeded() ==>
                  r.hr == Ok && r.sample == Some(OutputSample(OutputBuffer(d.outputInfo, last.pixels))))
    ensures r.sample.Some? <==> r.hr == Ok
    ensures r.hr == Ok || r.hr.Failed()
    ensures r.decoder == d.(geometry := Renegotiated(d.geometry, script[..|script| - |r.rest|]))
    ensures |r.rest| == |script| - 1 ==> r.decoder == d
    decreases |script|
  {
    var step := script[0];
    RenegotiatedOne(d.geometry, script);
    match step
    case SampleCreationFailed(hr) => OutputResult(hr, None, d, script[1..])
    case Processed(status, offered, pixels) =>
      if status == StreamChange then
        var (hr, g) := SetDecoderOutputType(d.geometry, offered);
        var d' := d.(geometry := g);
        if hr.Failed() then OutputResult(hr, None, d', script[1..])
        else
          var r := GetOutputSample(d', script[1..]);
          assert script[1..][|script[1..]| - |r.rest|..] == script[|script| - |r.rest|..];
          RenegotiatedPrefix(d.geometry, script, |script| - |r.rest|);
          r
      else if status == NeedMoreInput then OutputResult(NeedMoreInput, None, d, script[1..])
      else if status.Failed() then OutputResult(status, None, d, script[1..])
      else OutputResult(Ok, Some(OutputSample(OutputBuffer(d.outputInfo, pixels))), d, script[1..])
  }

  /** Retrieves one decoded frame: NEED_MORE_INPUT is passed on, success is
      reported only together with a sample, and any other failure is passed on. */
  function Output(d: Decoder, script: seq<OutputStep>): (r: OutputResult)
    requires d.hasTransform
    requires Settles(script)
    ensures r.hr.Succeeded() ==> r.hr == Ok && r.sample.Some?
    ensures r.sample.Some? ==> r.hr == Ok
    ensures GetOutputSample(d, script).hr == NeedMoreInput ==> r.hr == NeedMoreInput
    ensures GetOutputSample(d, script).hr.Failed() ==> r.hr == GetOutputSample(d, script).hr
    ensures GetOutputSample(d, script).hr.Succeeded() ==>
              r.hr == Ok && r.sample == GetOutputSample(d, script).sample
    ensures r.decoder == GetOutputSample(d, script).decoder && r.rest == GetOutputSample(d, script).rest
  {
    var g := GetOutputSample(d, script);
    if g.hr == NeedMoreInput then OutputResult(NeedMoreInput, None, g.decoder, g.rest)
    else if g.hr.Failed() || g.sample.None? then OutputResult(g.hr, None, g.decoder, g.rest)
    else OutputResult(Ok, g.sample, g.decoder, g.rest)
  }

  /* ---------------------------------------------------------------------
     Properties
     --------------------------------------------------------------------- */

  /** A stream change followed by a frame: the output type is renegotiated
      once, the frame comes back with the renegotiated geometry, and no
      further answer of the transform is consumed. */
  lemma StreamChangeThenFrame(d: Decoder, change: OutputStep, frame: OutputStep, more: seq<OutputStep>)
    requires d.hasTransform
    requires IsStreamChange(change)
    requires SetDecoderOutputType(d.geometry, change.offeredAfterChange).0 == Ok
    requires frame.Processed? && frame.processOutput.Succeeded()
    requires Settles([change, frame] + more)
    ensures var r := GetOutputSample(d, [change, frame] + more);
            && r.hr == Ok
            && r.sample == Some(OutputSample(OutputBuffer(d.outputInfo, frame.pixels)))
            && r.decoder.geometry == SetDecoderOutputType(d.geometry, change.offeredAfterChange).1
            && r.rest == more
  {
  }

  /** A failed renegotiation after a stream change is returned and leaves the
      cached geometry as it was. */
  lemma FailedRenegotiationPropagates(d: Decoder, change: OutputStep, more: seq<OutputStep>)
    requires d.hasTransform
    requires IsStreamChange(change)
    requires SetDecoderOutputType(d.geometry, change.offeredAfterChange).0 != Ok
    requires Settles([change] + more)
    ensures var r := GetOutputSample(d, [change] + more);
            && r.hr == OutputTypeStatus(change.offeredAfterChange)
            && r.hr.Failed() && r.sample.None?
            && r.decoder == d
            && r.rest == more
  {
  }

  /** When every step of Init succeeds, the wrapper holds the stream info the
      transform reported and the geometry of the first offered I420 type. */
  lemma InitSuccessState(d: Decoder, o: InitOracle)
    requires Init(d, o).hr == Ok
    ensures var r := Init(d, o);
            && r.decoder.hasTransform
            && o.inputInfo.Answered? && r.decoder.inputInfo == o.inputInfo.value
            && o.outputInfo.Answered? && r.decoder.outputInfo == o.outputInfo.value
            && r.decoder.geometry == SetDecoderOutputType(d.geometry, o.offered).1
  {
    var d0 := d.(hasTransform := true);
    var d1 := RunInitStep(d0, o, SetInputType).1;
    var d2 := RunInitStep(d1, o, SetOutputType).1;
    var d3 := RunInitStep(d2, o, BeginStreaming).1;
    var d4 := RunInitStep(d3, o, StartOfStream).1;
    var d5 := RunInitStep(d4, o, GetInputStreamInfo).1;
    var d6 := RunInitStep(d5, o, GetOutputStreamInfo).1;
    assert InitOrder[1..][1..][1..][1..][1..][1..] == [];
    assert RunInitSteps(d0, o, InitOrder).decoder == d6;
  }

  /** Renegotiation never refreshes the stream info read during Init: after
      any number of stream changes the output buffers are still sized by it. */
  lemma OutputKeepsStreamInfo(d: Decoder, script: seq<OutputStep>)
    requires d.hasTransform
    requires Settles(script)
    ensures GetOutputSample(d, script).decoder.outputInfo == d.outputInfo
    ensures GetOutputSample(d, script).decoder.inputInfo == d.inputInfo
    ensures GetOutputSample(d, script).sample.Some? ==>
              GetOutputSample(d, script).sample.value.buffer.maxLength == d.outputInfo.cbSize
  {
  }

  /** Output adds nothing to GetOutputSample: its status, sample, state and
      remaining answers are GetOutputSample's. */
  lemma OutputIsGetOutputSample(d: Decoder, script: seq<OutputStep>)
    requires d.hasTransform
    requires Settles(script)
    ensures Output(d, script) == GetOutputSample(d, script)
  {
  }

  /** After a successful Init, every input sample's buffer is sized by the
      input stream info Init read: the larger of its minimum size and the
      data size, with its alignment argument, holding the data. */
  lemma InputSizedByInitStreamInfo(d: Decoder, o: InitOracle, data: seq<Byte>, timeUs: int, durationUs: int,
                                   foreign: HResult, processInput: HResult)
    requires Init(d, o).hr == Ok
    requires |data| < Uint32Modulus
    requires foreign.Succeeded()
    ensures o.inputInfo.Answered?
    ensures var b := Input(Init(d, o).decoder, data, timeUs, durationUs, foreign, processInput).submitted.value.buffer;
            var info := o.inputInfo.value;
            && b.maxLength == (if info.cbSize >= |data| then info.cbSize else |data|)
            && b.alignment == AlignmentArgument(info.cbAlignment)
            && b.contents == data
  {
    InitSuccessState(d, o);
  }

  /** After a successful Init, a frame retrieved, across any number of
      stream changes, sits in a buffer sized by the output stream info Init
      read, with its alignment argument. */
  lemma OutputSizedByInitStreamInfo(d: Decoder, o: InitOracle, script: seq<OutputStep>)
    requires Init(d, o).hr == Ok
    requires Settles(script)
    ensures o.outputInfo.Answered?
    ensures var r := Output(Init(d, o).decoder, script);
            r.sample.Some? ==>
              && r.sample.value.buffer.maxLength == o.outputInfo.value.cbSize
              && r.sample.value.buffer.alignment == AlignmentArgument(o.outputInfo.value.cbAlignment)
  {
    InitSuccessState(d, o);
    OutputKeepsStreamInfo(Init(d, o).decoder, script);
  }

  /** After a successful Init, Reset sends the one flush message and
      succeeds exactly when the transform accepts it. */
  lemma ResetAfterInit(d: Decoder, o: InitOracle, flushResponse: HResult)
    requires Init(d, o).hr == Ok
    ensures Reset(Init(d, o).decoder, flushResponse).1 == [CommandFlush]
    ensures Reset(Init(d, o).decoder, flushResponse).0 == Ok <==> flushResponse.Succeeded()
  {
  }
}
