# ClearKey plugin core: persistent session ids and the H.264 transform wrapper

This project models two pieces of sequential logic in a ClearKey content-decryption plugin.
It proves properties of each.

1. **Persistent session-id bookkeeping** (`src/ClearKeyPersistence.cpp`), module `ClearKeyPersistence`.
   The process-wide state is one immutable `Persistence` record. It holds:
   - the load state, UNINITIALIZED → LOADING → LOADED;
   - the set of persisted session ids;
   - the counter behind `GetNewSessionId`;
   - the FIFO queue of create/load requests blocked until the stored ids are enumerated.

   Every entry point is a pure transition on that record.
   The storage enumeration is an input: a success flag and the record names it yields.
   `ClearKeyUtils::IsValidSessionId` is not part of this model, so it is a parameter (`isValid`).
   When a blocked task runs, it calls back into this bookkeeping through the session manager, which is also not part of this model.
   Those calls are a parameter too: `run` gives, for each task, the `Call`s it makes.
   A whole process is a trace of `Event`s: an entry point called by a session manager, or the storage layer completing the enumeration.
   `Replay` runs a trace, and `ReplayIssuedIds` lists the ids handed out along it, including those handed out to blocked tasks at load completion.
   The decimal rendering of the counter (`ss << n`) and C's `atoi` are modelled exactly, in module `Decimal`.
   The model proves they are inverse to each other.

2. **Control logic of the Media Foundation H.264 decoder wrapper** (`ClearKeyGMP/WMFH264Decoder.cpp`), module `WMFH264Decoder`.
   Status codes, media types and buffers are in module `MediaFoundation`.
   `Byte`, `Dword` and 2^32 are defined once, in module `Machine`, for both parts.
   The transform is an oracle:
   - each output type it offers is an `OfferedType`, holding its subtype, its answer to `SetOutputType`, its picture region, its frame size and its default stride;
   - `Init` reads everything it learns from an `InitOracle`;
   - `ProcessOutput` answers come from a finite script of `OutputStep`s, and each attempt consumes one step.

   The source retries after a stream change by calling itself without bound.
   In the model, termination follows from the script getting shorter.
   The precondition `Settles` states that the transform's answers end with something other than a stream change.

Two observations the model makes precise:
- `OutputKeepsStreamInfo`: the output stream info (`cbSize`, `cbAlignment`) is read once in `Init`. A stream change does not refresh it, so later output buffers keep the size negotiated at `Init`.
- `QueuedBeforeFailedEnumerationStayQueued`: if enumeration cannot be started, `EnsureInitialized` goes straight to LOADED. Any tasks queued before that are never run and never dropped. Only load completion runs blocked tasks.

Two further points about the code:
- After a stream change the code retries without bound.
- An unexpected transform failure is returned to the caller. The wrapper itself tears nothing down.

## Model

| member | source | states |
|---|---|---|
| `Decimal.Render` | src/ClearKeyPersistence.cpp:84-87 | the session-id text of a counter value is non-empty, all decimal digits, and has no leading zero |
| `Decimal.AtoiOfRender` | src/ClearKeyPersistence.cpp:84-87 | `atoi` of the rendered session id gives back the counter value (print/parse round trip) |
| `Decimal.RenderInjective` | src/ClearKeyPersistence.cpp:84-87 | two counter values render to the same session-id text exactly when they are equal |
| `Decimal.RenderOfAtoi` | src/ClearKeyPersistence.cpp:201-204 | every canonical digit string is the rendering of its `atoi` value (parse/print round trip) |
| `ClearKeyPersistence.SessionKey` | src/ClearKeyPersistence.cpp:201-204 | the set key of a session-id string (`atoi` stored as `uint32_t`) is below 2^32 |
| `ClearKeyPersistence.SessionKeyIsAtoi` | src/ClearKeyPersistence.cpp:203 | the set key equals `atoi`'s value whenever that value is a `uint32_t` |
| `ClearKeyPersistence.RenderedIdIsPersistentIffStored` | src/ClearKeyPersistence.cpp:200-204 | a rendered id within uint32 range is recognised as persistent exactly when it is in the persisted set |
| `ClearKeyPersistence.KeyOfRender` | src/ClearKeyPersistence.cpp:201-204 | the set key of a rendered id within uint32 range is that id |
| `ClearKeyPersistence.EnsureInitialized` | src/ClearKeyPersistence.cpp:63-72 | from UNINITIALIZED it moves to LOADING, or straight to LOADED when enumeration fails to start; in any other state it changes nothing; ids, counter and queue are never touched |
| `ClearKeyPersistence.EnsureInitializedIdempotent` | src/ClearKeyPersistence.cpp:64-72 | a second EnsureInitialized has no effect |
| `ClearKeyPersistence.NextFreeId` | src/ClearKeyPersistence.cpp:79-82 | the id the skip loop stops at is not persisted, is at least the counter, and every id between the counter and it is persisted |
| `ClearKeyPersistence.GetNewSessionId` | src/ClearKeyPersistence.cpp:74-96 | the handed-out id is not in the persisted set at the call; it is the least such id at or above the counter; the counter moves past it; the text is its decimal rendering; a persistent session adds it to the set, other types leave the set unchanged |
| `ClearKeyPersistence.IssuedIdsIncrease` | src/ClearKeyPersistence.cpp:77-93 | across any sequence of entry-point calls, such as those one task makes, the ids handed out are strictly increasing, at least the starting counter, and below the final counter |
| `ClearKeyPersistence.EventIssuedIdsIncrease` | src/ClearKeyPersistence.cpp:53-59 | one event, a call or a load completion that runs the blocked tasks, hands out increasing ids between the counter before it and the counter after it |
| `ClearKeyPersistence.ReplayIssuedIdsIncrease` | src/ClearKeyPersistence.cpp:34-96 | over any trace, load completions included, the ids handed out are strictly increasing, at least the starting counter, and below the final counter |
| `ClearKeyPersistence.IssuedSessionIdsDistinct` | src/ClearKeyPersistence.cpp:34-96 | from process start, over any trace of calls and load completions, every handed-out id is at least 1 and no two handed-out session-id strings are equal |
| `ClearKeyPersistence.NewIdIsPersistentIffPersistentSession` | src/ClearKeyPersistence.cpp:84-91 | IsPersistentSessionId of a just-issued id is true exactly when the session type was persistent |
| `ClearKeyPersistence.DeferCreateSessionIfNotReady` | src/ClearKeyPersistence.cpp:137-156 | returns true exactly when not LOADED; then exactly one create task with the requesting instance and the request's arguments is appended at the tail; when LOADED nothing changes |
| `ClearKeyPersistence.DeferLoadSessionIfNotReady` | src/ClearKeyPersistence.cpp:183-198 | returns true exactly when not LOADED; then exactly one load task with the requesting instance and the request's arguments is appended at the tail; when LOADED nothing changes |
| `ClearKeyPersistence.PersistentSessionRemoved` | src/ClearKeyPersistence.cpp:239-243 | the key of the given id is no longer persisted, every other persisted id remains, nothing is added, and the rest of the state is unchanged |
| `ClearKeyPersistence.CreateThenRemoveRestoresIds` | src/ClearKeyPersistence.cpp:240-243 | creating a persistent session and then removing its id restores the persisted set |
| `ClearKeyPersistence.ReadRecordNames` | src/ClearKeyPersistence.cpp:40-52 | the iterator loop adds exactly the keys of the valid record names to the persisted set |
| `ClearKeyPersistence.StoredIdsAreValidNames` | src/ClearKeyPersistence.cpp:45-49 | an id is read from storage exactly when some record name is a valid session id whose `atoi` is that id |
| `ClearKeyPersistence.ReadAllRecordsFromIterator` | src/ClearKeyPersistence.cpp:34-61 | the loop implementation computes `LoadCompleted`: the ids are extended by the stored ids only when enumeration succeeded, the state becomes LOADED before the tasks run, the blocked tasks run once each in the order they were queued, and the queue ends empty |
| `ClearKeyPersistence.RunTasksIsApplyAll` | src/ClearKeyPersistence.cpp:56-59 | running the tasks one after the other is applying their calls concatenated in queue order |
| `ClearKeyPersistence.LoadCompletedIsLoaded` | src/ClearKeyPersistence.cpp:53-60 | whatever the tasks call, load completion ends LOADED with an empty queue, and the counter is the one the tasks' calls leave |
| `ClearKeyPersistence.LoadCompletionIds` | src/ClearKeyPersistence.cpp:40-53 | when the tasks make no calls, the final persisted set is the old set plus the stored ids on success, and the old set on failure |
| `ClearKeyPersistence.LoadedIsAbsorbing` | src/ClearKeyPersistence.cpp:145-147 | once LOADED, no sequence of calls changes the state or the queue, so a task that calls Defer* while running is not queued again |
| `ClearKeyPersistence.QueuedBeforeFailedEnumerationStayQueued` | src/ClearKeyPersistence.cpp:66-70 | after enumeration fails to start, the state is LOADED and the tasks queued before stay in the queue whatever is called later |
| `ClearKeyPersistence.LoadedIsAbsorbingOverTrace` | src/ClearKeyPersistence.cpp:53-72 | once LOADED, every later call or load completion keeps the state LOADED |
| `ClearKeyPersistence.StateOnlyMovesForward` | src/ClearKeyPersistence.cpp:34-72 | no trace of calls and load completions moves the load state backwards, and a trace with a load completion ends LOADED |
| `MediaFoundation.AlignmentArgument` | ClearKeyGMP/WMFH264Decoder.cpp:216 | the alignment argument is one less than the stream's alignment when that exceeds 1, and 0 otherwise |
| `MediaFoundation.DwordAsInt32` | ClearKeyGMP/WMFH264Decoder.cpp:215 | storing a DWORD size in an `int32_t` gives a value in int32 range, equal to the size when below 2^31 |
| `WMFH264Decoder.NewDecoder` | ClearKeyGMP/WMFH264Decoder.cpp:19-24 | a new wrapper has no transform, both stream-info structures are zero in size and alignment, and the geometry is left as it was |
| `WMFH264Decoder.ConfigureVideoFrameGeometry` | ClearKeyGMP/WMFH264Decoder.cpp:89-115 | succeeds exactly when both the picture-region and the frame-size query succeed, returning the first failing query's code otherwise; width, height, picture region and stride are replaced only on success, and the previous geometry is kept on failure |
| `WMFH264Decoder.FirstI420From` | ClearKeyGMP/WMFH264Decoder.cpp:173-179 | picks the lowest-indexed offered type whose subtype reads as I420, or reports that none does |
| `WMFH264Decoder.SetDecoderOutputTypeFrom` | ClearKeyGMP/WMFH264Decoder.cpp:172-188 | the enumeration loop skips unreadable and non-I420 types and acts on the first I420 type, or fails with E_FAIL when there is none |
| `WMFH264Decoder.SetDecoderOutputType` | ClearKeyGMP/WMFH264Decoder.cpp:165-191 | commits the first offered I420 type: E_FAIL with no I420 type; the transform's failure when it rejects the type; otherwise the geometry configuration's result; the geometry changes only on success |
| `WMFH264Decoder.SendMftMessage` | ClearKeyGMP/WMFH264Decoder.cpp:193-200 | without a transform nothing is sent and the result is E_POINTER; otherwise exactly the one message is sent and its failure is returned, or S_OK |
| `WMFH264Decoder.Reset` | ClearKeyGMP/WMFH264Decoder.cpp:351-358 | exactly one flush message is sent, and the result is S_OK exactly when the flush succeeded, its failure otherwise |
| `WMFH264Decoder.FirstFailure` | ClearKeyGMP/WMFH264Decoder.cpp:141-163 | the input-type setup returns S_OK exactly when every call succeeds, and otherwise the first failing call's code |
| `WMFH264Decoder.RunInitStep` | ClearKeyGMP/WMFH264Decoder.cpp:68-84 | each Init step returns its status, S_OK on success, and changes nothing when it fails |
| `WMFH264Decoder.RunInitSteps` | ClearKeyGMP/WMFH264Decoder.cpp:68-86 | the steps run form a prefix of the requested order; every step before the last one run succeeded; a failure is the last step's status; S_OK exactly when all steps ran and succeeded |
| `WMFH264Decoder.Init` | ClearKeyGMP/WMFH264Decoder.cpp:30-87 | failing to create the transform gives E_FAIL with no step run; otherwise the steps run in the fixed order input type, output type, BEGIN_STREAMING, START_OF_STREAM, input stream info, output stream info, stopping at the first failure, whose code is returned |
| `WMFH264Decoder.InitSuccessState` | ClearKeyGMP/WMFH264Decoder.cpp:68-86 | after a successful Init the wrapper holds the reported input and output stream info and the geometry of the first offered I420 type |
| `WMFH264Decoder.CreateInputSample` | ClearKeyGMP/WMFH264Decoder.cpp:202-246 | the input buffer's size is the larger of the stream's minimum size and the data size, so the data always fits; its alignment argument follows the stream's alignment; it holds exactly the data; the sample carries the given times; a failing memory or sample call is returned |
| `WMFH264Decoder.Input` | ClearKeyGMP/WMFH264Decoder.cpp:312-332 | the sample handed to ProcessInput is the one CreateInputSample builds from the wrapper's input stream info; NOTACCEPTING from the transform is returned unchanged; any other ProcessInput failure is returned; S_OK exactly when the sample was built and the transform accepted it |
| `WMFH264Decoder.InputSizedByInitStreamInfo` | ClearKeyGMP/WMFH264Decoder.cpp:213-216 | after a successful Init, every input buffer is the larger of the input stream's minimum size and the data size, with the input stream's alignment argument, and holds the data |
| `WMFH264Decoder.OutputBuffer` | ClearKeyGMP/WMFH264Decoder.cpp:256-259 | the output buffer's size is the stream's output size, after the `int32_t` detour, and its alignment argument follows the stream's alignment |
| `WMFH264Decoder.GetOutputSample` | ClearKeyGMP/WMFH264Decoder.cpp:275-310 | every answer consumed before the last is a stream change whose renegotiation succeeded; the last answer decides the result: a failed sample creation or ProcessOutput failure is returned, a failed renegotiation's status is returned, NEED_MORE_INPUT is returned, and success returns the filled sample; a sample comes back exactly with S_OK; the geometry becomes the one obtained by renegotiating on each consumed stream change in order, and nothing else changes |
| `WMFH264Decoder.StreamChangeThenFrame` | ClearKeyGMP/WMFH264Decoder.cpp:293-298 | a stream change and then a frame yields that frame with the renegotiated geometry, and no further transform answer is consumed |
| `WMFH264Decoder.FailedRenegotiationPropagates` | ClearKeyGMP/WMFH264Decoder.cpp:293-296 | a renegotiation that fails after a stream change is returned and leaves the wrapper unchanged |
| `WMFH264Decoder.OutputKeepsStreamInfo` | ClearKeyGMP/WMFH264Decoder.cpp:275-310 | retrieving output, renegotiations included, never changes the stream info, so output buffers stay sized by what Init read |
| `WMFH264Decoder.Output` | ClearKeyGMP/WMFH264Decoder.cpp:334-349 | NEED_MORE_INPUT is passed through; any other failure is passed through; a success of GetOutputSample becomes S_OK with that same sample; a success is reported only as S_OK together with a sample |
| `WMFH264Decoder.OutputIsGetOutputSample` | ClearKeyGMP/WMFH264Decoder.cpp:334-349 | Output's status, sample, state and remaining transform answers are exactly GetOutputSample's |
| `WMFH264Decoder.OutputSizedByInitStreamInfo` | ClearKeyGMP/WMFH264Decoder.cpp:256-259 | after a successful Init, a frame retrieved across any number of stream changes sits in a buffer of the output stream's size and alignment argument as Init read them |
| `WMFH264Decoder.ResetAfterInit` | ClearKeyGMP/WMFH264Decoder.cpp:351-358 | after a successful Init, Reset sends exactly one flush and returns S_OK exactly when the transform accepts it |

## Left out

- Loading `msmpeg2vdec.dll`, `DllGetClassObject`, the class factory and `CreateInstance` (ClearKeyGMP/WMFH264Decoder.cpp:33-66) are foreign Windows calls. They are one flag, `transformCreated`.
- `MFCreateSample`, `MFCreateAlignedMemoryBuffer`, `Lock`/`memcpy`/`Unlock`, `SetCurrentLength`, `AddBuffer` and `SetSampleTime` are foreign memory and sample calls. Their combined outcome is one `foreign` status, or an output step `SampleCreationFailed` (which carries no ProcessOutput answer, since ProcessOutput is not called then). A buffer is its size, alignment argument and contents, and the contents stand for the `memcpy`.
- `SetSampleDuration`'s result is ignored by the code, and is not modelled.
- `UsecsToHNs` is not part of this model. Input samples carry the caller's microsecond times unchanged.
- `::GetPictureRegion`, `GetDefaultStride` and `MFGetAttributeSize` are not part of this model. Their answers are fields of `OfferedType`. A stride of `None` means the call wrote nothing.
- `GetOutputAvailableType` is modelled as a finite list of offered types. The first failure of that call, for whatever reason, is the end of the list.
- The `!sample` test in GetOutputSample (ClearKeyGMP/WMFH264Decoder.cpp:299) is not modelled. The sample is never null once CreateOutputSample has succeeded.
- The null media-type check in ConfigureVideoFrameGeometry (line 92) is not modelled. Every type returned by GetOutputAvailableType is non-null.
- The `MFT_OUTPUT_DATA_BUFFER` status word and its event collection are not modelled, because the code ignores them.
- `GetFrameWidth`, `GetFrameHeight`, `GetPictureRegion` and `GetStride` only read `Geometry` fields.
- The `int32_t` type of the cached width and height is not modelled. They keep the `UINT32` values the frame-size query returns.
- `GetOutputSample`: the source recursion after a stream change is unbounded. The model requires `Settles` (the transform's answers end with something other than a stream change) instead of modelling a transform that requests stream changes forever.
- `Input`, `GetOutputSample`, `Output`: these require a created transform. Without one, the source dereferences a null pointer.
- `ClearKeyPersistence.GetNewSessionId`: the counter is an unbounded number. The uint32 wrap-around of `sNextSessionId` is not modelled, because the code relies on 2^32 session ids never being handed out in one process. The lemmas that go through `atoi` require the id to be below 2^32.
- `Decimal.Atoi`: values outside `int` are unbounded rather than undefined.
- `EnumRecordNames`, `LoadSessionData` and `LoadSessionFromKeysTask` (src/ClearKeyPersistence.cpp:68,206-237) do storage I/O. Enumeration is its success flag and its list of names.
- A session manager instance (`aInstance`, the task's `mTarget`) is kept only as an identity, `Instance`. What it does is not part of this model.
- The bodies of `CreateSessionTask::Run` and `LoadSessionTask::Run` forward to the session manager, which is not part of this model. What a task does is the `run` parameter. `Destroy` and the iterator's `Close` only release memory and resources.
- `ClearKeyUtils::IsValidSessionId` is not part of this model. It is the `isValid` parameter.
- The `MOZ_ASSERT` that load completion happens in LOADING is a debug-only check. The model does not require it, so a trace may complete the enumeration in any state; the trace lemmas hold for those traces too. Other asserts and logging are also left out.
- src/VideoDecoder.h and src/AudioDecoder.h hold declarations only. The audio decoder is an inert stub.
- AVCC to Annex B rewriting, parsing of the codec configuration record, conversion of decoded samples to pictures, and the worker-thread/mutex task queue are not part of this model. Their implementations are not among the modelled files, and the task queue is concurrency.
