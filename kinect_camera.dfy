/** The capture controller: session setup, capture orchestration and the per-channel processors. */
module Camera {
  import opened HResults
  import opened Channels
  import opened KinectSdk
  import opened FrameBuffers
  import opened CaptureModel

  /** Releases the interface behind a pointer variable, if any, and nulls the variable. */
  method SafeRelease(driver: Driver, p: Ptr) returns (q: Ptr)
    modifies driver
    ensures q == Null
    ensures driver.calls == old(driver.calls) + ReleaseCalls(p)
  {
    q := p;
    if q != Null {
      driver.Release(q.handle);
      q := Null;
    }
  }

  /** Three stretches of calls appended one after another are their concatenation appended at once. */
  lemma AppendThree<T>(start: seq<T>, a: seq<T>, b: seq<T>, c: seq<T>, after: seq<T>)
    requires after == start + a + b + c
    ensures after == start + (a + b + c)
  {
  }

  lemma AppendFour<T>(start: seq<T>, a: seq<T>, b: seq<T>, c: seq<T>, d: seq<T>, after: seq<T>)
    requires after == start + a + b + c + d
    ensures after == start + (a + b + c + d)
  {
  }

  class KinectCamera {
    var colorWanted: bool
    var infraredWanted: bool
    var depthWanted: bool
    var colorOutput: string
    var infraredOutput: string
    var depthOutput: string

    /** The current sensor and the multi-source frame reader opened on it. */
    var sensor: Ptr
    var reader: Ptr

    /** The runtime and image sink this camera talks to. */
    const driver: Driver

    function Config(): Settings
      reads this
    {
      Settings(colorWanted, infraredWanted, depthWanted, colorOutput, infraredOutput, depthOutput)
    }

    /** A camera that wants every channel and holds no sensor or reader yet. */
    constructor (driver: Driver)
      ensures this.driver == driver
      ensures colorWanted && infraredWanted && depthWanted
      ensures colorOutput == "" && infraredOutput == "" && depthOutput == ""
      ensures sensor == Null && reader == Null
    {
      this.driver := driver;
      sensor, reader := Null, Null;
      colorWanted, infraredWanted, depthWanted := true, true, true;
      colorOutput, infraredOutput, depthOutput := "", "", "";
    }

    /**
      Fetches the default sensor, opens it and opens a multi-source frame
      reader for the wanted channels. The sensor pointer is always the one
      the runtime wrote; the reader is written only when the sensor opened.
    */
    method InitializeDefaultSensor(o: InitOracle) returns (hr: HResult)
      modifies this`sensor, this`reader, driver
      ensures sensor == SensorOut(o)
      ensures var got := GetDefaultKinectSensor(o.sensorStatus, SensorOut(o));
        if Failed(o.sensorStatus) then
          hr == o.sensorStatus && reader == old(reader)
          && driver.calls == old(driver.calls) + [got]
        else if !o.sensorFound then
          hr == E_FAIL && reader == old(reader)
          && driver.calls == old(driver.calls) + [got]
        else if Failed(o.openStatus) then
          hr == o.openStatus && reader == old(reader)
          && driver.calls == old(driver.calls) + [got, OpenSensor(o.openStatus)]
        else
          hr == o.readerStatus && reader == ReaderOut(o)
          && driver.calls == old(driver.calls)
             + [got, OpenSensor(o.openStatus),
                OpenMultiSourceFrameReader(ReaderMask(colorWanted, infraredWanted, depthWanted),
                                           o.readerStatus, ReaderOut(o))]
    {
      hr, sensor := driver.GetDefaultKinectSensor(o);
      if Failed(hr) {
        return hr;
      }

      if sensor != Null {
        hr := driver.Open(o);

        if Succeeded(hr) {
          var wantedTypes: bv32 := FrameSourceNone;
          if colorWanted {
            wantedTypes := wantedTypes | FrameSourceColor;
          }
          if infraredWanted {
            wantedTypes := wantedTypes | FrameSourceInfrared;
          }
          if depthWanted {
            wantedTypes := wantedTypes | FrameSourceDepth;
          }
          hr, reader := driver.OpenMultiSourceFrameReader(wantedTypes, o);
        }
      } else {
        hr := E_FAIL;
      }
    }

    /**
      Polls the reader until a multi-source frame arrives, releasing what each
      failed attempt handed back. `tries` is the count the source logs: the
      number of failed attempts before the successful one.
    */
    method AcquireMultiSourceFrame(polls: seq<PollOutcome>) returns (frame: Ptr, tries: nat)
      requires EventuallySucceeds(polls)
      modifies driver
      ensures tries == FirstSuccess(polls)
      ensures forall j :: 0 <= j < tries ==> Failed(polls[j].status)
      ensures Succeeded(polls[tries].status)
      ensures frame == NonNull(MultiSourceFrame(tries))
      ensures driver.calls == old(driver.calls) + PollCalls(polls)
    {
      var k := FirstSuccess(polls);
      var hr;
      tries := 0;
      hr, frame := driver.AcquireLatestFrame(tries, polls[tries]);
      while Failed(hr)
        invariant tries <= k
        invariant hr == polls[tries].status && frame == PollFrame(tries, polls[tries])
        invariant driver.calls == old(driver.calls) + FailedPollCalls(polls, tries) + [PollCall(tries, polls[tries])]
        decreases k - tries
      {
        frame := SafeRelease(driver, frame);
        tries := tries + 1;
        hr, frame := driver.AcquireLatestFrame(tries, polls[tries]);
      }
    }

    /**
      Captures one frame of every wanted channel. Every wanted channel's
      reference and frame are requested before any channel is processed;
      each channel is processed only if its own frame was acquired; every
      handle is released; the result is S_OK only when all three status
      variables succeeded.
    */
    method Capture(o: CaptureOracle) returns (hr: HResult)
      requires reader != Null ==> EventuallySucceeds(o.polls)
      modifies driver
      ensures hr == CaptureRun(Config(), reader != Null, o).status
      ensures driver.calls == old(driver.calls) + CaptureRun(Config(), reader != Null, o).calls
    {
      if reader == Null {
        return E_NOT_VALID_STATE;
      }
      hr := CaptureFrame(o);
    }

    /** Capture once the reader is known to be open: poll, request, process, release, reduce. */
    method CaptureFrame(o: CaptureOracle) returns (hr: HResult)
      requires EventuallySucceeds(o.polls)
      modifies driver
      ensures hr == CaptureStatus(Config(), o)
      ensures driver.calls
        == old(driver.calls) + (PollCalls(o.polls) + RequestPhase(Config(), o) + ProcessPhase(Config(), o)
                                + [Release(MultiSourceFrame(FirstSuccess(o.polls)))])
    {
      ghost var cfg := Config();
      var multiSourceFrame, tries := AcquireMultiSourceFrame(o.polls);
      ghost var polled := driver.calls;

      // The status variables start out indeterminate: the source leaves them uninitialised.
      var hrColor, hrInfrared, hrDepth := o.color.indeterminate, o.infrared.indeterminate, o.depth.indeterminate;
      var colorReference, colorFrame := Null, Null;
      var infraredReference, infraredFrame := Null, Null;
      var depthReference, depthFrame := Null, Null;

      // Request every wanted channel at once: the frame expires quickly.
      hrColor, colorReference, colorFrame := RequestChannel(Color, o.color, hrColor);
      hrInfrared, infraredReference, infraredFrame := RequestChannel(Infrared, o.infrared, hrInfrared);
      hrDepth, depthReference, depthFrame := RequestChannel(Depth, o.depth, hrDepth);
      ghost var requested := driver.calls;
      AppendThree(polled, RequestCalls(cfg, Color, o.color), RequestCalls(cfg, Infrared, o.infrared),
                  RequestCalls(cfg, Depth, o.depth), requested);

      // Then the slow work, one channel at a time.
      hrColor := FinishChannel(Color, hrColor, colorReference, colorFrame, o.color);
      hrInfrared := FinishChannel(Infrared, hrInfrared, infraredReference, infraredFrame, o.infrared);
      hrDepth := FinishChannel(Depth, hrDepth, depthReference, depthFrame, o.depth);
      ghost var finished := driver.calls;
      AppendThree(requested, ChannelCalls(cfg, Color, o.color), ChannelCalls(cfg, Infrared, o.infrared),
                  ChannelCalls(cfg, Depth, o.depth), finished);

      multiSourceFrame := SafeRelease(driver, multiSourceFrame);
      AppendFour(old(driver.calls), PollCalls(o.polls), RequestPhase(cfg, o), ProcessPhase(cfg, o),
                 [Release(MultiSourceFrame(FirstSuccess(o.polls)))], driver.calls);

      if Succeeded(hrColor) && Succeeded(hrInfrared) && Succeeded(hrDepth) {
        hr := S_OK;
      } else {
        hr := E_FAIL;
      }
      assert cfg == Config();
    }

    /**
      The request step of one channel: for a wanted channel, get its
      reference, then acquire its frame; an unwanted channel keeps its
      status variable and null pointers.
    */
    method RequestChannel(ch: Channel, c: ChannelOracle, status: HResult)
      returns (hr: HResult, reference: Ptr, frame: Ptr)
      modifies driver
      ensures Config().Wanted(ch) ==>
        hr == c.acquireStatus && reference == NonNull(FrameReference(ch)) && frame == ChannelFrame(ch, c)
      ensures !Config().Wanted(ch) ==> hr == status && reference == Null && frame == Null
      ensures driver.calls == old(driver.calls) + RequestCalls(Config(), ch, c)
    {
      hr, reference, frame := status, Null, Null;
      if Config().Wanted(ch) {
        var ignored;
        ignored, reference := driver.GetFrameReference(ch, c);
        hr, frame := driver.AcquireFrame(ch, c);
      }
    }

    /**
      The processing step of one channel: for a wanted channel, process it
      if its frame was acquired, then release its frame and its reference.
    */
    method FinishChannel(ch: Channel, acquired: HResult, reference: Ptr, frame: Ptr, c: ChannelOracle)
      returns (hr: HResult)
      requires Config().Wanted(ch) ==>
        acquired == c.acquireStatus && reference == NonNull(FrameReference(ch)) && frame == ChannelFrame(ch, c)
      requires !Config().Wanted(ch) ==> acquired == c.indeterminate
      modifies driver
      ensures hr == ChannelStatus(Config(), ch, c)
      ensures driver.calls == old(driver.calls) + ChannelCalls(Config(), ch, c)
    {
      hr := acquired;
      if Config().Wanted(ch) {
        if Succeeded(hr) {
          hr := Process(ch, frame, c);
        }
        var released := SafeRelease(driver, frame);
        released := SafeRelease(driver, reference);
      }
    }

    /**
      ProcessColor, ProcessInfrared and ProcessDepth: read the frame's size,
      copy it into a buffer of that size (BGRA for color, 16-bit for infrared
      and depth) and write the buffer to the channel's output path when the
      copy succeeded. The status is the copy's; a failed write is only logged.
    */
    method Process(ch: Channel, frame: Ptr, c: ChannelOracle) returns (hr: HResult)
      requires frame != Null
      modifies driver
      ensures hr == c.copyStatus
      ensures driver.calls == old(driver.calls) + ProcessCalls(ch, Config().Output(ch), c)
    {
      var ignored, description, width, height := driver.GetFrameDescription(ch, c);
      description := SafeRelease(driver, description);

      var img := ChannelBuffer(ch, width, height);
      hr := driver.CopyFrameData(ch, CopyCapacity(ch, width, height), img, c);
      if Succeeded(hr) {
        var path := Config().Output(ch);
        var ok := driver.WriteImage(ch, path, img, c);
      }
    }
  }
}
