/**
  The calls one Capture makes and the status it returns, as functions of the
  camera's settings and of the runtime's answers. KinectCamera.Capture is
  proved to make exactly these calls and return this status.
*/
module CaptureModel {
  import opened HResults
  import opened Channels
  import opened KinectSdk
  import opened FrameBuffers

  /** The public configuration of a camera: which channels are wanted and where each is saved. */
  datatype Settings = Settings(
    colorWanted: bool, infraredWanted: bool, depthWanted: bool,
    colorOutput: string, infraredOutput: string, depthOutput: string)
  {
    function Wanted(ch: Channel): bool
    {
      match ch
      case Color => colorWanted
      case Infrared => infraredWanted
      case Depth => depthWanted
    }

    function Output(ch: Channel): string
    {
      match ch
      case Color => colorOutput
      case Infrared => infraredOutput
      case Depth => depthOutput
    }
  }

  /** The reader mask: the OR of the FrameSourceTypes bits of the wanted channels. */
  function ReaderMask(colorWanted: bool, infraredWanted: bool, depthWanted: bool): (m: bv32)
    ensures (m & FrameSourceColor != 0) == colorWanted
    ensures (m & FrameSourceInfrared != 0) == infraredWanted
    ensures (m & FrameSourceDepth != 0) == depthWanted
    ensures m & !(FrameSourceColor | FrameSourceInfrared | FrameSourceDepth) == 0
    ensures (m == FrameSourceNone) == (!colorWanted && !infraredWanted && !depthWanted)
  {
    (if colorWanted then FrameSourceColor else FrameSourceNone)
    | (if infraredWanted then FrameSourceInfrared else FrameSourceNone)
    | (if depthWanted then FrameSourceDepth else FrameSourceNone)
  }

  /** The calls SafeRelease makes on a pointer variable. */
  function ReleaseCalls(p: Ptr): seq<Event>
  {
    if p.NonNull? then [Release(p.handle)] else []
  }

  // ---------------------------------------------------------------- polling

  /** The poll answers end in a success: the poll loop returns. */
  predicate EventuallySucceeds(polls: seq<PollOutcome>)
  {
    |polls| > 0 && (Succeeded(polls[0].status) || EventuallySucceeds(polls[1..]))
  }

  /** The attempt at which the poll loop stops: the first success. */
  function FirstSuccess(polls: seq<PollOutcome>): (k: nat)
    requires EventuallySucceeds(polls)
    ensures k < |polls| && Succeeded(polls[k].status)
    ensures forall j :: 0 <= j < k ==> Failed(polls[j].status)
  {
    if Succeeded(polls[0].status) then 0 else 1 + FirstSuccess(polls[1..])
  }

  /** One AcquireLatestFrame call, with the status and frame it hands back. */
  function PollCall(attempt: nat, p: PollOutcome): Event
  {
    AcquireLatestFrame(attempt, p.status, PollFrame(attempt, p))
  }

  /** The calls made by the first n attempts when each of them fails: poll, then release what it handed back. */
  function FailedPollCalls(polls: seq<PollOutcome>, n: nat): (r: seq<Event>)
    requires n <= |polls|
    ensures n <= |r| <= 2 * n
  {
    if n == 0 then []
    else FailedPollCalls(polls, n - 1) + [PollCall(n - 1, polls[n - 1])] + ReleaseCalls(PollFrame(n - 1, polls[n - 1]))
  }

  /** The calls of the whole poll loop: every failed attempt, then the successful one. */
  function PollCalls(polls: seq<PollOutcome>): (r: seq<Event>)
    requires EventuallySucceeds(polls)
    ensures FirstSuccess(polls) < |r|
    ensures r[|r| - 1] == PollCall(FirstSuccess(polls), polls[FirstSuccess(polls)])
  {
    var k := FirstSuccess(polls);
    FailedPollCalls(polls, k) + [PollCall(k, polls[k])]
  }

  // ---------------------------------------------------------------- channels

  /** The request of one channel: its frame reference, then its frame. */
  function RequestCalls(s: Settings, ch: Channel, c: ChannelOracle): seq<Event>
  {
    if s.Wanted(ch) then
      [GetFrameReference(ch, c.referenceStatus, NonNull(FrameReference(ch))),
       AcquireFrame(ch, c.acquireStatus, ChannelFrame(ch, c))]
    else []
  }

  /**
    The calls of one Process* call: describe the frame, copy it into a buffer
    of the described size, write that buffer if the copy succeeded.
  */
  function ProcessCalls(ch: Channel, path: string, c: ChannelOracle): seq<Event>
  {
    var img := ChannelBuffer(ch, c.width, c.height);
    [GetFrameDescription(ch, c.descriptionStatus, NonNull(FrameDescription(ch))),
     Release(FrameDescription(ch)),
     CopyFrameData(ch, CopyCapacity(ch, c.width, c.height), img, c.copyStatus)]
    + (if Succeeded(c.copyStatus) then [WriteImage(ch, path, img, c.written)] else [])
  }

  /** The finishing of one channel: process it if its frame was acquired, then release its frame and reference. */
  function ChannelCalls(s: Settings, ch: Channel, c: ChannelOracle): seq<Event>
  {
    if s.Wanted(ch) then
      (if Succeeded(c.acquireStatus) then ProcessCalls(ch, s.Output(ch), c) else [])
      + ReleaseCalls(ChannelFrame(ch, c)) + [Release(FrameReference(ch))]
    else []
  }

  /**
    The status variable of one channel at the end of Capture: the acquire
    status, replaced by the processor's status when the acquire succeeded;
    the uninitialised (indeterminate) value when the channel is not wanted.
  */
  function ChannelStatus(s: Settings, ch: Channel, c: ChannelOracle): (r: HResult)
    ensures !s.Wanted(ch) ==> r == c.indeterminate
    ensures s.Wanted(ch) ==> (Succeeded(r) <==> Succeeded(c.acquireStatus) && Succeeded(c.copyStatus))
    ensures s.Wanted(ch) ==> r == c.acquireStatus || r == c.copyStatus
  {
    if !s.Wanted(ch) then c.indeterminate
    else if Succeeded(c.acquireStatus) then c.copyStatus
    else c.acquireStatus
  }

  /** All requests, in channel order, before any processing. */
  function RequestPhase(s: Settings, o: CaptureOracle): seq<Event>
  {
    RequestCalls(s, Color, o.color) + RequestCalls(s, Infrared, o.infrared) + RequestCalls(s, Depth, o.depth)
  }

  /** All processing and per-channel releases, in channel order. */
  function ProcessPhase(s: Settings, o: CaptureOracle): seq<Event>
  {
    ChannelCalls(s, Color, o.color) + ChannelCalls(s, Infrared, o.infrared) + ChannelCalls(s, Depth, o.depth)
  }

  /** The status Capture returns once a frame was polled: S_OK when all three status variables succeeded. */
  function CaptureStatus(s: Settings, o: CaptureOracle): (r: HResult)
    ensures r == S_OK || r == E_FAIL
    ensures r == S_OK <==> forall ch: Channel :: Succeeded(ChannelStatus(s, ch, o.Of(ch)))
  {
    assert o.Of(Color) == o.color && o.Of(Infrared) == o.infrared && o.Of(Depth) == o.depth;
    if Succeeded(ChannelStatus(s, Color, o.color))
       && Succeeded(ChannelStatus(s, Infrared, o.infrared))
       && Succeeded(ChannelStatus(s, Depth, o.depth))
    then S_OK else E_FAIL
  }

  datatype Run = Run(status: HResult, calls: seq<Event>)

  /** One Capture call: refused without a reader; otherwise poll, request, process, release. */
  function CaptureRun(s: Settings, readerOpen: bool, o: CaptureOracle): (r: Run)
    requires readerOpen ==> EventuallySucceeds(o.polls)
    ensures !readerOpen ==> r.status == E_NOT_VALID_STATE && r.calls == []
    ensures readerOpen ==> r.status == S_OK || r.status == E_FAIL
    ensures readerOpen ==> |r.calls| > 0 && r.calls[|r.calls| - 1] == Release(MultiSourceFrame(FirstSuccess(o.polls)))
  {
    if !readerOpen then Run(E_NOT_VALID_STATE, [])
    else
      Run(CaptureStatus(s, o),
          PollCalls(o.polls) + RequestPhase(s, o) + ProcessPhase(s, o)
          + [Release(MultiSourceFrame(FirstSuccess(o.polls)))])
  }
}
