# KinectCamera capture controller in Dafny

This project models the `KinectCamera` class, which drives a Kinect v2 sensor.
The class connects to the default sensor and opens a multi-source frame reader
for the wanted channels: color, infrared and depth. Each `Capture` call then does
the following:

- polls the reader until a multi-source frame arrives;
- requests every wanted channel's frame reference and frame straight away,
  because the frame expires quickly;
- processes each acquired channel by reading its size, copying it into a pixel
  buffer and writing that buffer to the channel's output path;
- releases every interface pointer it was handed;
- reduces the three channel status codes to `S_OK` or `E_FAIL`.

The model is imperative, like the source:

- `Camera.KinectCamera` is a class with the source's fields: the three wanted
  flags, the three output paths, and the sensor and reader pointers.
- Its methods (`InitializeDefaultSensor`, `Capture` and the per-channel
  processing) update those fields and talk to a `KinectSdk.Driver`.
- The Kinect runtime and the image sink are `Driver` objects. Each of their
  answers comes from an oracle value passed in by the caller. The driver records
  every call, with what the call returned, in a ledger, `calls`.
- `Capture` is proved to return exactly the status, and append exactly the
  calls, of the pure function `CaptureModel.CaptureRun`.
- The properties of a capture are lemmas about `CaptureRun`: the poll count,
  handle balance, the order requests-before-processing, channel independence,
  and the returned status.
- Handle balance uses `HandleLedger.Held`, which replays the ledger. A handle
  may be handed out only when it is not held and released only when it is
  held; a stretch of calls is balanced when it ends holding nothing.

Three behaviours of the code shape the model:

- A failed `cv::imwrite` is only logged (KinectCamera/KinectCamera.cpp:191-198).
  The processor returns the copy call's status (line 205), so a failed write
  does not fail the channel.
- The count the poll loop logs is the number of failed polls before the
  first success (KinectCamera/KinectCamera.cpp:105-107). A frame that arrives
  on the third poll logs 2.
- The status variables of unwanted channels are declared without an initial
  value (KinectCamera/KinectCamera.cpp:109) and are still read by the final
  reduction (line 165). The model makes each such value an explicit,
  unspecified input, `ChannelOracle.indeterminate`.

All paths below are relative to the repository root. The FrameSourceTypes bits
and the HRESULT codes follow the Kinect for Windows SDK 2.0 headers and
winerror.h. Kinect.h is not part of this model.

## Model

| member | source | states |
|---|---|---|
| HResults.FromBits | KinectCamera/KinectCamera.cpp:99 | a 32-bit code pattern is read as the signed HRESULT with the same bits; it is negative (a failure) exactly when the top bit is set |
| KinectSdk.PollFrame | KinectCamera/KinectCamera.cpp:105 | a successful AcquireLatestFrame always hands back that attempt's frame; a failed one hands back that frame or null |
| KinectSdk.ChannelFrame | KinectCamera/KinectCamera.cpp:121 | a successful AcquireFrame always hands back the channel's frame; a failed one hands back the frame or null |
| KinectSdk.Driver.GetDefaultKinectSensor | KinectCamera/KinectCamera.cpp:42 | answers the oracle's status and sensor pointer and records the call |
| KinectSdk.Driver.Open | KinectCamera/KinectCamera.cpp:52 | answers the oracle's open status and records the call |
| KinectSdk.Driver.OpenMultiSourceFrameReader | KinectCamera/KinectCamera.cpp:63-65 | answers the oracle's status and reader pointer and records the call together with the mask it was given |
| KinectSdk.Driver.AcquireLatestFrame | KinectCamera/KinectCamera.cpp:105 | answers one poll outcome and records the attempt number, status and frame |
| KinectSdk.Driver.GetFrameReference | KinectCamera/KinectCamera.cpp:120 | hands back the channel's reference and records the call |
| KinectSdk.Driver.AcquireFrame | KinectCamera/KinectCamera.cpp:121 | answers the channel's acquire status and frame and records the call |
| KinectSdk.Driver.GetFrameDescription | KinectCamera/KinectCamera.cpp:178-180 | hands back the description and the frame's width and height and records the call |
| KinectSdk.Driver.CopyFrameData | KinectCamera/KinectCamera.cpp:184-188 | answers the copy status and records the capacity and the buffer it was asked to fill |
| KinectSdk.Driver.WriteImage | KinectCamera/KinectCamera.cpp:191 | answers the sink's result and records the path and the buffer it was given |
| KinectSdk.Driver.Release | KinectCamera/KinectCamera.cpp:15 | records the release of one handle |
| HandleLedger.NoViolationInBalanced | KinectCamera/KinectCamera.cpp:13-16 | a balanced stretch of calls (every handle handed out released once, nothing left held) breaks the discipline at no prefix |
| HandleLedger.ViolationIsFinal | KinectCamera/KinectCamera.cpp:13-16 | once a stretch of calls breaks the release discipline, no later calls repair it |
| HandleLedger.DoubleReleaseBreaks | KinectCamera/KinectCamera.cpp:13-16 | releasing one handle twice in a row always breaks the discipline, which is why SafeRelease nulls the pointer |
| FrameBuffers.ChannelBuffer | KinectCamera/KinectCamera.cpp:183 | a processor's buffer has height rows and width columns and holds W·H·4 bytes for color and W·H·2 bytes for infrared and depth |
| FrameBuffers.CopyCapacity | KinectCamera/KinectCamera.cpp:184-186 | the copy capacity total·elemSize/elemSize1, cast to UINT, is W·H·4 for color and W·H for infrared and depth, modulo 2^32 |
| FrameBuffers.CapacityFillsBuffer | KinectCamera/KinectCamera.cpp:220-224 | when the cast does not truncate, capacity elements of elemSize1 bytes fill the buffer exactly |
| CaptureModel.ReaderMask | KinectCamera/KinectCamera.cpp:56-62 | the reader mask has the Color, Infrared and Depth bits set exactly for the wanted flags, has no other bit set, and is FrameSourceTypes_None exactly when no flag is set |
| CaptureModel.FirstSuccess | KinectCamera/KinectCamera.cpp:105 | the loop stops at the first poll that succeeds: every earlier poll failed |
| CaptureModel.FailedPollCalls | KinectCamera/KinectCamera.cpp:105-106 | n failed polls make at least n and at most 2n calls: each poll, plus a release when it handed back a frame |
| CaptureModel.PollCalls | KinectCamera/KinectCamera.cpp:105-106 | the poll loop makes more calls than it has failed attempts and ends with the successful AcquireLatestFrame |
| CaptureModel.ChannelStatus | KinectCamera/KinectCamera.cpp:137-138 | a wanted channel's status succeeds exactly when its acquire and its copy both succeeded, and is one of those two codes; an unwanted channel's status is its uninitialised value |
| CaptureModel.CaptureStatus | KinectCamera/KinectCamera.cpp:165-168 | the result is S_OK or E_FAIL, and S_OK exactly when all three channel status variables succeeded |
| CaptureModel.CaptureRun | KinectCamera/KinectCamera.cpp:94-169 | without a reader the run is E_NOT_VALID_STATE with no calls; with one the status is S_OK or E_FAIL and the last call releases the multi-source frame |
| Camera.SafeRelease | KinectCamera/KinectCamera.cpp:10-18 | releases the handle once when the pointer is non-null and makes no call when it is null; the pointer is null afterwards |
| Camera.KinectCamera.constructor | KinectCamera/KinectCamera.cpp:20-27 | a fresh camera wants all three channels, has empty output paths and holds no sensor and no reader |
| Camera.KinectCamera.InitializeDefaultSensor | KinectCamera/KinectCamera.cpp:38-77 | a failed GetDefaultKinectSensor returns its status with no further call; a null sensor gives E_FAIL; a failed Open returns its status; otherwise the reader is opened with the wanted-flags mask and its status is returned; the reader field changes only on that last path |
| Camera.KinectCamera.AcquireMultiSourceFrame | KinectCamera/KinectCamera.cpp:102-107 | the poll loop returns the first successful attempt's frame, releases what each failed attempt handed back, and its count is the number of failed attempts |
| Camera.KinectCamera.Capture | KinectCamera/KinectCamera.cpp:94-169 | returns exactly the status, and makes exactly the calls, of CaptureRun for the camera's settings |
| Camera.KinectCamera.CaptureFrame | KinectCamera/KinectCamera.cpp:102-168 | with the reader open: polls, requests every wanted channel, processes and releases each, releases the multi-source frame, and returns CaptureStatus |
| Camera.KinectCamera.RequestChannel | KinectCamera/KinectCamera.cpp:118-122 | a wanted channel gets its reference and then its frame, and its status becomes the acquire status; an unwanted channel gets no call and keeps its status |
| Camera.KinectCamera.FinishChannel | KinectCamera/KinectCamera.cpp:135-143 | a wanted channel is processed only when its acquire succeeded, then its frame and reference are released; its final status is ChannelStatus |
| Camera.KinectCamera.Process | KinectCamera/KinectCamera.cpp:171-206 | describes the frame and releases the description, copies with the channel's capacity into a buffer of the described size, writes that buffer to the channel's output path only when the copy succeeded, and returns the copy status |
| CaptureProperties.FailedPollAttempts | KinectCamera/KinectCamera.cpp:105-106 | n failed polls make AcquireLatestFrame calls numbered 0 to n-1, in order |
| CaptureProperties.PollAttempts | KinectCamera/KinectCamera.cpp:104-107 | the poll loop makes attempts 0..k, where k is the first success; every earlier attempt failed, so the logged count k is the number of failures |
| CaptureProperties.FailedPollsBalanced | KinectCamera/KinectCamera.cpp:105-106 | each failed attempt's transient frame is released before the next poll |
| CaptureProperties.RequestHeld | KinectCamera/KinectCamera.cpp:118-122 | a wanted channel's request hands out its reference and, when one is returned, its frame |
| CaptureProperties.ProcessHeld | KinectCamera/KinectCamera.cpp:178-181 | a processor hands out its frame description and releases it again |
| CaptureProperties.ChannelHeld | KinectCamera/KinectCamera.cpp:135-143 | finishing a channel releases exactly what its request handed out, whether or not the acquire or the copy succeeded |
| CaptureProperties.PollPhaseHeld | KinectCamera/KinectCamera.cpp:102-107 | after the poll loop only the successful attempt's frame is held |
| CaptureProperties.RequestPhaseHeld | KinectCamera/KinectCamera.cpp:117-132 | the request phase adds each wanted channel's reference and frame to what is held |
| CaptureProperties.ProcessPhaseHeld | KinectCamera/KinectCamera.cpp:135-161 | the phase that processes and releases the channels gives back everything the request phase added |
| CaptureProperties.CaptureBalanced | KinectCamera/KinectCamera.cpp:141-163 | across one Capture every handle handed out is released exactly once, nothing else is released, and nothing is left held |
| CaptureProperties.CaptureNeverViolates | KinectCamera/KinectCamera.cpp:102-163 | at no point of a Capture is a handle released that is not held, or handed out while already held |
| CaptureProperties.FailedPollsAreQuiet | KinectCamera/KinectCamera.cpp:105-106 | failed polls only poll and release multi-source frames |
| CaptureProperties.PollCallsAreQuiet | KinectCamera/KinectCamera.cpp:105-106 | the poll loop makes no channel request and no processing call |
| CaptureProperties.RequestPhaseRequests | KinectCamera/KinectCamera.cpp:117-132 | every call of the request phase is a reference request or an AcquireFrame |
| CaptureProperties.ChannelCallsDoNotRequest | KinectCamera/KinectCamera.cpp:135-143 | finishing a channel makes no reference request and no AcquireFrame |
| CaptureProperties.ProcessPhaseDoesNotRequest | KinectCamera/KinectCamera.cpp:135-161 | the processing phase requests nothing |
| CaptureProperties.PhasesInOrder | KinectCamera/KinectCamera.cpp:117-133 | in quiet calls, then requests, then calls that request nothing, every request comes before every processing call |
| CaptureProperties.RequestsPrecedeProcessing | KinectCamera/KinectCamera.cpp:117-161 | in one Capture every reference request and AcquireFrame comes before every description, copy and write call |
| CaptureProperties.RequestCallsAbout | KinectCamera/KinectCamera.cpp:118-132 | a channel's request concerns that channel only |
| CaptureProperties.ChannelCallsAbout | KinectCamera/KinectCamera.cpp:135-160 | a channel's processing and releases concern that channel only |
| CaptureProperties.PollCallsOfChannel | KinectCamera/KinectCamera.cpp:105-106 | the poll loop concerns no channel |
| CaptureProperties.RequestPhaseOfChannel | KinectCamera/KinectCamera.cpp:117-132 | the calls of the request phase about one channel are exactly that channel's request |
| CaptureProperties.ProcessPhaseOfChannel | KinectCamera/KinectCamera.cpp:135-161 | the calls of the processing phase about one channel are exactly that channel's processing and releases |
| CaptureProperties.ChannelProjection | KinectCamera/KinectCamera.cpp:117-161 | the calls of a Capture about one channel are that channel's script alone, whatever the other channels' answers |
| CaptureProperties.InScript | KinectCamera/KinectCamera.cpp:135-140 | apart from requests and releases, a channel's script holds processing calls only when it is wanted and its frame was acquired |
| CaptureProperties.InProcessCalls | KinectCamera/KinectCamera.cpp:178-199 | a processor (ProcessCalls) always describes the frame and copies it into a buffer of the described size, and calls the sink with its path and that buffer exactly when the copy succeeded |
| CaptureProperties.ProcessedIffAcquired | KinectCamera/KinectCamera.cpp:135-161 | a channel is described and copied, into a buffer of its described size, in a Capture exactly when it is wanted and its own acquire succeeded; a failure on another channel does not matter |
| CaptureProperties.WrittenIffCopied | KinectCamera/KinectCamera.cpp:189-199 | the sink is called for a channel exactly when it is wanted, acquired and copied, and then with that channel's output path and the buffer its frame was copied into |
| CaptureProperties.UnwantedUntouched | KinectCamera/KinectCamera.cpp:118-161 | an unwanted channel gets no reference request, no AcquireFrame, no processing and no release |
| CaptureProperties.WantedScript | KinectCamera/KinectCamera.cpp:118-143 | a wanted channel's own calls request its reference and frame and release the reference, and the frame when one was handed back |
| CaptureProperties.WantedRequested | KinectCamera/KinectCamera.cpp:118-143 | a wanted channel's reference and frame are requested, the reference is released, and so is the frame when one was handed back |
| CaptureProperties.NotReadyRefused | KinectCamera/KinectCamera.cpp:96-100 | without a reader Capture returns E_NOT_VALID_STATE, a failure distinct from E_FAIL, and makes no call at all |
| CaptureProperties.StatusAnySelection | KinectCamera/KinectCamera.cpp:109-168 | for any selection of channels, Capture returns S_OK exactly when every wanted channel was acquired and copied and every unwanted channel's uninitialised status holds a success value, and E_FAIL otherwise |
| CaptureProperties.AllWantedStatus | KinectCamera/KinectCamera.cpp:165-168 | with every channel wanted, Capture returns S_OK exactly when every channel was acquired and copied, and E_FAIL otherwise |
| CaptureProperties.StatusIgnores | KinectCamera/KinectCamera.cpp:137-168 | the status depends only on each channel's acquire and copy results (and an unwanted channel's indeterminate value), not on the sink, the sizes or the poll history |
| CaptureProperties.FailedWriteStillSucceeds | KinectCamera/KinectCamera.cpp:189-205 | an acquired channel whose copy succeeded reports success even when the image write failed |
| CaptureProperties.UnwantedIndeterminateDecides | KinectCamera/KinectCamera.cpp:109-168 | the uninitialised status of an unwanted channel is still read: when it is a failure, Capture returns E_FAIL however the wanted channels fared |
| CaptureProperties.SafeReleaseDiscipline | KinectCamera/KinectCamera.cpp:11-18 | SafeRelease of a held handle releases it exactly once and makes no call for null; a second SafeRelease of the nulled pointer adds nothing, so twice is the same as once, whereas releasing without nulling would break the discipline |
| CaptureProperties.ColorAndDepthCapture | KinectCamera/KinectCamera.cpp:94-278 | with color and depth wanted and the frame on the third poll, the loop's count is 2; color is copied with capacity 8294400 into an 8294400-byte BGRA buffer and depth with capacity 217088 into a 434176-byte 16-bit buffer, and the sink is given exactly those buffers; infrared is never touched, every handle is balanced, and the status is S_OK exactly when the uninitialised infrared status succeeds |

## Left out

- The destructor is not modelled. It releases the reader and closes and releases the sensor, all through SDK calls.
- `CheckAvailiable` is not modelled. It forwards one SDK availability query and maps "not available" to E_FAIL.
- The test console driver in KinectCameraTest/KinectCameraTest.cpp is not modelled. It is a console loop with sleeps and standard output.
- Logging (`Log::*`) is left out, because it does not affect behaviour.
- The Kinect runtime calls are oracle answers held in `KinectSdk.Driver`. These are the COM interface calls and `AddRef`/`Release` reference counting.
- `cv::Mat` allocation and `cv::imwrite` are left out. The buffer is its size (`FrameBuffers.FrameBuffer`) and the write is a boolean oracle answer. Pixel data is not modelled.
- Camera.KinectCamera.AcquireMultiSourceFrame: termination of the poll loop is not claimed. The source polls without bound. The model takes a finite sequence of poll answers that ends in a success (`EventuallySucceeds`), which `Capture` requires when a reader is open.
- `get_*FrameReference` and `get_FrameDescription` are modelled as always handing back a pointer, because the source dereferences it without a check. A successful `AcquireFrame` likewise always hands back a frame. The statuses of these calls are recorded but ignored, as in the source.
- Frame width and height are taken as non-negative (`nat`). The source reads them into `int` and never checks them.
- Camera.KinectCamera.InitializeDefaultSensor: overwriting a sensor or reader from an earlier call without releasing it is not tracked. The model leaves the sensor and reader out of the handle ledger.
- KinectSdk.PollFrame: a successful `AcquireLatestFrame` is taken to always hand back a frame. The source dereferences that frame without a check at KinectCamera/KinectCamera.cpp:120, 125 and 130.
- The poll counter `int i` is modelled as an unbounded natural number, so a 32-bit signed overflow after 2^31 failed polls is not captured.
- The `ColorImageFormat_Bgra` argument of the color copy is not recorded in the call. The color buffer's element type (four bytes per pixel) is recorded.
