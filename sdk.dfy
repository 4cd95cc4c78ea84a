/**
  The boundary between the camera controller and the Kinect runtime and the
  image sink. Every answer the runtime gives is an oracle value handed in by the
  caller; every call the controller makes is recorded in a ledger, so that the
  order of calls and the balance of acquired and released handles can be
  stated about it.
*/
module KinectSdk {
  import opened HResults
  import opened Channels
  import opened FrameBuffers

  /** FrameSourceTypes bits of the Kinect for Windows SDK 2.0. */
  const FrameSourceNone: bv32 := 0x0
  const FrameSourceColor: bv32 := 0x1
  const FrameSourceInfrared: bv32 := 0x2
  const FrameSourceDepth: bv32 := 0x8

  /**
    A reference-counted interface pointer handed out by the runtime, named by
    its role. The transient multi-source frame handed out by the i-th call of
    AcquireLatestFrame is MultiSourceFrame(i).
  */
  datatype Handle =
    | Sensor
    | Reader
    | MultiSourceFrame(attempt: nat)
    | FrameReference(ch: Channel)
    | Frame(ch: Channel)
    | FrameDescription(ch: Channel)

  /** An interface pointer variable: null, or pointing at a live handle. */
  datatype Ptr = Null | NonNull(handle: Handle)

  /** One call into the runtime or the image sink, with what it returned. */
  datatype Event =
    | GetDefaultKinectSensor(status: HResult, out: Ptr)
    | OpenSensor(status: HResult)
    | OpenMultiSourceFrameReader(mask: bv32, status: HResult, out: Ptr)
    | AcquireLatestFrame(attempt: nat, status: HResult, out: Ptr)
    | GetFrameReference(ch: Channel, status: HResult, out: Ptr)
    | AcquireFrame(ch: Channel, status: HResult, out: Ptr)
    | GetFrameDescription(ch: Channel, status: HResult, out: Ptr)
      /** CopyConvertedFrameDataToArray (BGRA) for color, CopyFrameDataToArray otherwise, into the buffer. */
    | CopyFrameData(ch: Channel, capacity: nat, buffer: FrameBuffer, status: HResult)
      /** cv::imwrite of the buffer to the channel's output path. */
    | WriteImage(ch: Channel, path: string, buffer: FrameBuffer, ok: bool)
    | Release(handle: Handle)

  /** The pointer an event hands back to the controller (Null for calls that hand back none). */
  function Yields(e: Event): Ptr
  {
    match e
    case GetDefaultKinectSensor(_, out) => out
    case OpenMultiSourceFrameReader(_, _, out) => out
    case AcquireLatestFrame(_, _, out) => out
    case GetFrameReference(_, _, out) => out
    case AcquireFrame(_, _, out) => out
    case GetFrameDescription(_, _, out) => out
    case _ => Null
  }

  /** What the runtime answers to InitializeDefaultSensor's three calls. */
  datatype InitOracle = InitOracle(
    sensorStatus: HResult, sensorFound: bool,
    openStatus: HResult,
    readerStatus: HResult, readerOut: bool)

  /** The pointers GetDefaultKinectSensor and OpenMultiSourceFrameReader write. */
  function SensorOut(o: InitOracle): Ptr { if o.sensorFound then NonNull(Sensor) else Null }
  function ReaderOut(o: InitOracle): Ptr { if o.readerOut then NonNull(Reader) else Null }

  /**
    The answer to one AcquireLatestFrame poll. On success a frame is always
    handed back; on failure the runtime may still hand back one.
  */
  datatype PollOutcome = PollOutcome(status: HResult, frameOnFailure: bool)

  function PollFrame(attempt: nat, p: PollOutcome): (r: Ptr)
    ensures Succeeded(p.status) ==> r == NonNull(MultiSourceFrame(attempt))
    ensures r == Null || r == NonNull(MultiSourceFrame(attempt))
  {
    if Succeeded(p.status) || p.frameOnFailure then NonNull(MultiSourceFrame(attempt)) else Null
  }

  /**
    Everything the runtime and the sink answer about one channel in one
    Capture call. `indeterminate` is the value the channel's status variable
    holds when the channel is not wanted: the controller leaves it
    uninitialised and still reads it, so the model leaves it unspecified.
  */
  datatype ChannelOracle = ChannelOracle(
    referenceStatus: HResult,
    acquireStatus: HResult, frameOnFailure: bool,
    descriptionStatus: HResult, width: nat, height: nat,
    copyStatus: HResult,
    written: bool,
    indeterminate: HResult)

  /** The frame pointer AcquireFrame writes: always set on success, maybe on failure. */
  function ChannelFrame(ch: Channel, c: ChannelOracle): (r: Ptr)
    ensures Succeeded(c.acquireStatus) ==> r == NonNull(Frame(ch))
    ensures r == Null || r == NonNull(Frame(ch))
  {
    if Succeeded(c.acquireStatus) || c.frameOnFailure then NonNull(Frame(ch)) else Null
  }

  /** Everything the runtime and the sink answer in one Capture call. */
  datatype CaptureOracle = CaptureOracle(
    polls: seq<PollOutcome>,
    color: ChannelOracle, infrared: ChannelOracle, depth: ChannelOracle)
  {
    function Of(ch: Channel): ChannelOracle
    {
      match ch
      case Color => color
      case Infrared => infrared
      case Depth => depth
    }
  }

  /**
    The Kinect runtime and the image sink as the controller sees them: each
    method answers from its oracle argument and appends the call to `calls`.
  */
  class Driver {
    var calls: seq<Event>

    constructor ()
      ensures calls == []
    {
      calls := [];
    }

    method GetDefaultKinectSensor(o: InitOracle) returns (hr: HResult, sensor: Ptr)
      modifies this
      ensures hr == o.sensorStatus && sensor == SensorOut(o)
      ensures calls == old(calls) + [Event.GetDefaultKinectSensor(hr, sensor)]
    {
      hr, sensor := o.sensorStatus, SensorOut(o);
      calls := calls + [Event.GetDefaultKinectSensor(hr, sensor)];
    }

    method Open(o: InitOracle) returns (hr: HResult)
      modifies this
      ensures hr == o.openStatus
      ensures calls == old(calls) + [OpenSensor(hr)]
    {
      hr := o.openStatus;
      calls := calls + [OpenSensor(hr)];
    }

    method OpenMultiSourceFrameReader(mask: bv32, o: InitOracle) returns (hr: HResult, reader: Ptr)
      modifies this
      ensures hr == o.readerStatus && reader == ReaderOut(o)
      ensures calls == old(calls) + [Event.OpenMultiSourceFrameReader(mask, hr, reader)]
    {
      hr, reader := o.readerStatus, ReaderOut(o);
      calls := calls + [Event.OpenMultiSourceFrameReader(mask, hr, reader)];
    }

    method AcquireLatestFrame(attempt: nat, p: PollOutcome) returns (hr: HResult, frame: Ptr)
      modifies this
      ensures hr == p.status && frame == PollFrame(attempt, p)
      ensures calls == old(calls) + [Event.AcquireLatestFrame(attempt, hr, frame)]
    {
      hr, frame := p.status, PollFrame(attempt, p);
      calls := calls + [Event.AcquireLatestFrame(attempt, hr, frame)];
    }

    method GetFrameReference(ch: Channel, c: ChannelOracle) returns (hr: HResult, reference: Ptr)
      modifies this
      ensures hr == c.referenceStatus && reference == NonNull(FrameReference(ch))
      ensures calls == old(calls) + [Event.GetFrameReference(ch, hr, reference)]
    {
      hr, reference := c.referenceStatus, NonNull(FrameReference(ch));
      calls := calls + [Event.GetFrameReference(ch, hr, reference)];
    }

    method AcquireFrame(ch: Channel, c: ChannelOracle) returns (hr: HResult, frame: Ptr)
      modifies this
      ensures hr == c.acquireStatus && frame == ChannelFrame(ch, c)
      ensures calls == old(calls) + [Event.AcquireFrame(ch, hr, frame)]
    {
      hr, frame := c.acquireStatus, ChannelFrame(ch, c);
      calls := calls + [Event.AcquireFrame(ch, hr, frame)];
    }

    method GetFrameDescription(ch: Channel, c: ChannelOracle)
      returns (hr: HResult, description: Ptr, width: nat, height: nat)
      modifies this
      ensures hr == c.descriptionStatus && description == NonNull(FrameDescription(ch))
      ensures width == c.width && height == c.height
      ensures calls == old(calls) + [Event.GetFrameDescription(ch, hr, description)]
    {
      hr, description := c.descriptionStatus, NonNull(FrameDescription(ch));
      width, height := c.width, c.height;
      calls := calls + [Event.GetFrameDescription(ch, hr, description)];
    }

    method CopyFrameData(ch: Channel, capacity: nat, buffer: FrameBuffer, c: ChannelOracle) returns (hr: HResult)
      modifies this
      ensures hr == c.copyStatus
      ensures calls == old(calls) + [Event.CopyFrameData(ch, capacity, buffer, hr)]
    {
      hr := c.copyStatus;
      calls := calls + [Event.CopyFrameData(ch, capacity, buffer, hr)];
    }

    method WriteImage(ch: Channel, path: string, buffer: FrameBuffer, c: ChannelOracle) returns (ok: bool)
      modifies this
      ensures ok == c.written
      ensures calls == old(calls) + [Event.WriteImage(ch, path, buffer, ok)]
    {
      ok := c.written;
      calls := calls + [Event.WriteImage(ch, path, buffer, ok)];
    }

    method Release(h: Handle)
      modifies this
      ensures calls == old(calls) + [Event.Release(h)]
    {
      calls := calls + [Event.Release(h)];
    }
  }
}
