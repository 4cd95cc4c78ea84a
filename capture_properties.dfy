/**
  What one Capture call does, proved about CaptureModel.CaptureRun: the poll
  loop, handle balance, the order of requests and processing, channel
  independence and the returned status.
*/
module CaptureProperties {
  import opened HResults
  import opened Channels
  import opened KinectSdk
  import opened HandleLedger
  import opened FrameBuffers
  import opened CaptureModel

  // ---------------------------------------------------------------- the poll loop

  /** The attempt numbers of the AcquireLatestFrame calls in a stretch of calls, in order. */
  function Attempts(t: seq<Event>): seq<nat>
  {
    if t == [] then []
    else (if t[0].AcquireLatestFrame? then [t[0].attempt] else []) + Attempts(t[1..])
  }

  /** 0, 1, ..., n - 1. */
  function Upto(n: nat): (r: seq<nat>)
    ensures |r| == n && forall j :: 0 <= j < n ==> r[j] == j
  {
    if n == 0 then [] else Upto(n - 1) + [n - 1]
  }

  lemma {:induction false} AttemptsAppend(a: seq<Event>, b: seq<Event>)
    ensures Attempts(a + b) == Attempts(a) + Attempts(b)
    decreases |a|
  {
    if a == [] {
      assert a + b == b;
    } else {
      assert (a + b)[0] == a[0];
      assert (a + b)[1..] == a[1..] + b;
      AttemptsAppend(a[1..], b);
    }
  }

  lemma {:induction false} FailedPollAttempts(polls: seq<PollOutcome>, n: nat)
    requires n <= |polls|
    ensures Attempts(FailedPollCalls(polls, n)) == Upto(n)
  {
    if n > 0 {
      var p := FailedPollCalls(polls, n - 1);
      var q := [PollCall(n - 1, polls[n - 1])];
      var r := ReleaseCalls(PollFrame(n - 1, polls[n - 1]));
      FailedPollAttempts(polls, n - 1);
      AttemptsAppend(p + q, r);
      AttemptsAppend(p, q);
      assert Attempts(q) == [n - 1];
      assert Attempts(r) == [];
    }
  }

  /**
    The poll loop calls AcquireLatestFrame once per attempt, numbered 0 to k,
    where attempt k is the first that succeeds; the count it logs, k, is the
    number of failed attempts before it.
  */
  lemma PollAttempts(polls: seq<PollOutcome>)
    requires EventuallySucceeds(polls)
    ensures Attempts(PollCalls(polls)) == Upto(FirstSuccess(polls) + 1)
    ensures forall j :: 0 <= j < FirstSuccess(polls) ==> Failed(polls[j].status)
    ensures Succeeded(polls[FirstSuccess(polls)].status)
  {
    var k := FirstSuccess(polls);
    FailedPollAttempts(polls, k);
    AttemptsAppend(FailedPollCalls(polls, k), [PollCall(k, polls[k])]);
  }

  /** Each failed attempt's frame, if one was handed back, is released before the next attempt. */
  lemma {:induction false} FailedPollsBalanced(polls: seq<PollOutcome>, n: nat)
    requires EventuallySucceeds(polls) && n <= FirstSuccess(polls)
    ensures Balanced(FailedPollCalls(polls, n))
  {
    if n > 0 {
      var p := FailedPollCalls(polls, n - 1);
      var frame := PollFrame(n - 1, polls[n - 1]);
      var q := [PollCall(n - 1, polls[n - 1])];
      FailedPollsBalanced(polls, n - 1);
      HeldAppend({}, p + q, ReleaseCalls(frame));
      HeldAppend({}, p, q);
      HeldOne({}, q[0]);
      assert Held({}, p) == Some({});
      assert Held({}, p + q) == Held({}, q);
      if frame.NonNull? {
        var h := frame.handle;
        assert {} + {h} == {h};
        assert Held({}, q) == Some({h});
        assert ReleaseCalls(frame) == [Release(h)];
        HeldOne({h}, Release(h));
        assert {h} - {h} == {};
      } else {
        assert Held({}, q) == Some({});
        assert ReleaseCalls(frame) == [];
      }
    }
  }

  // ---------------------------------------------------------------- handle balance

  /** None of a channel's own handles is in the set. */
  predicate Free(held: set<Handle>, ch: Channel)
  {
    FrameReference(ch) !in held && Frame(ch) !in held && FrameDescription(ch) !in held
  }

  /** The handles a channel holds between its request and its finishing. */
  function Requested(s: Settings, ch: Channel, c: ChannelOracle): set<Handle>
  {
    if !s.Wanted(ch) then {}
    else if ChannelFrame(ch, c).NonNull? then {FrameReference(ch), Frame(ch)}
    else {FrameReference(ch)}
  }

  lemma RequestHeld(held: set<Handle>, s: Settings, ch: Channel, c: ChannelOracle)
    requires Free(held, ch)
    ensures Held(held, RequestCalls(s, ch, c)) == Some(held + Requested(s, ch, c))
  {
    if !s.Wanted(ch) {
      assert held + Requested(s, ch, c) == held;
    } else {
      var t := RequestCalls(s, ch, c);
      HeldAppend(held, [t[0]], [t[1]]);
      assert [t[0]] + [t[1]] == t;
      HeldOne(held, t[0]);
      HeldOne(held + {FrameReference(ch)}, t[1]);
      assert Held(held, [t[0]]) == Some(held + {FrameReference(ch)});
      if ChannelFrame(ch, c).NonNull? {
        assert held + {FrameReference(ch)} + {Frame(ch)} == held + {FrameReference(ch), Frame(ch)};
      }
    }
  }

  /** A Process* call hands out its frame description and releases it again. */
  lemma ProcessHeld(held: set<Handle>, ch: Channel, path: string, c: ChannelOracle)
    requires FrameDescription(ch) !in held
    ensures Held(held, ProcessCalls(ch, path, c)) == Some(held)
  {
    var d := FrameDescription(ch);
    var t := ProcessCalls(ch, path, c);
    var head := [GetFrameDescription(ch, c.descriptionStatus, NonNull(d)), Release(d)];
    var rest := t[2..];
    assert t == head + rest;
    HeldAppend(held, head, rest);
    HeldAppend(held, [head[0]], [head[1]]);
    assert [head[0]] + [head[1]] == head;
    HeldOne(held, head[0]);
    HeldOne(held + {d}, head[1]);
    assert held + {d} - {d} == held;
    HeldAppend(held, [rest[0]], rest[1..]);
    assert [rest[0]] + rest[1..] == rest;
    HeldOne(held, rest[0]);
    if Succeeded(c.copyStatus) {
      assert rest[1..] == [rest[1]];
      HeldOne(held, rest[1]);
    } else {
      assert rest[1..] == [];
    }
  }

  lemma ChannelHeld(held: set<Handle>, s: Settings, ch: Channel, c: ChannelOracle)
    requires Free(held, ch)
    ensures Held(held + Requested(s, ch, c), ChannelCalls(s, ch, c)) == Some(held)
  {
    if !s.Wanted(ch) {
      assert held + Requested(s, ch, c) == held;
    } else {
      var start := held + Requested(s, ch, c);
      var process := if Succeeded(c.acquireStatus) then ProcessCalls(ch, s.Output(ch), c) else [];
      var frame := ChannelFrame(ch, c);
      var release := ReleaseCalls(frame) + [Release(FrameReference(ch))];
      assert ChannelCalls(s, ch, c) == process + release;
      HeldAppend(start, process, release);
      if Succeeded(c.acquireStatus) {
        ProcessHeld(start, ch, s.Output(ch), c);
      }
      assert Held(start, process) == Some(start);
      HeldAppend(start, ReleaseCalls(frame), [Release(FrameReference(ch))]);
      var afterFrame := held + {FrameReference(ch)};
      if frame.NonNull? {
        assert start - {Frame(ch)} == afterFrame;
        HeldOne(start, Release(Frame(ch)));
      } else {
        assert start == afterFrame;
      }
      assert Held(start, ReleaseCalls(frame)) == Some(afterFrame);
      HeldOne(afterFrame, Release(FrameReference(ch)));
      assert afterFrame - {FrameReference(ch)} == held;
    }
  }

  /** After the poll loop only the successful attempt's frame is held. */
  lemma PollPhaseHeld(polls: seq<PollOutcome>)
    requires EventuallySucceeds(polls)
    ensures Held({}, PollCalls(polls)) == Some({MultiSourceFrame(FirstSuccess(polls))})
  {
    var k := FirstSuccess(polls);
    var m := MultiSourceFrame(k);
    FailedPollsBalanced(polls, k);
    HeldAppend({}, FailedPollCalls(polls, k), [PollCall(k, polls[k])]);
    HeldOne({}, PollCall(k, polls[k]));
    assert PollFrame(k, polls[k]) == NonNull(m);
    assert {} + {m} == {m};
  }

  /** The request phase adds every wanted channel's reference and frame to what is held. */
  lemma RequestPhaseHeld(s: Settings, o: CaptureOracle, m: Handle)
    requires m.MultiSourceFrame?
    ensures Held({m}, RequestPhase(s, o))
            == Some({m} + Requested(s, Color, o.color) + Requested(s, Infrared, o.infrared) + Requested(s, Depth, o.depth))
  {
    var rc, ri := Requested(s, Color, o.color), Requested(s, Infrared, o.infrared);
    var c1, c2, c3 := RequestCalls(s, Color, o.color), RequestCalls(s, Infrared, o.infrared), RequestCalls(s, Depth, o.depth);
    RequestHeld({m}, s, Color, o.color);
    RequestHeld({m} + rc, s, Infrared, o.infrared);
    RequestHeld({m} + rc + ri, s, Depth, o.depth);
    HeldAppend({m}, c1 + c2, c3);
    HeldAppend({m}, c1, c2);
  }

  /** The process phase releases everything the request phase added. */
  lemma ProcessPhaseHeld(s: Settings, o: CaptureOracle, m: Handle)
    requires m.MultiSourceFrame?
    ensures Held({m} + Requested(s, Color, o.color) + Requested(s, Infrared, o.infrared) + Requested(s, Depth, o.depth),
                 ProcessPhase(s, o))
            == Some({m})
  {
    var rc, ri, rd := Requested(s, Color, o.color), Requested(s, Infrared, o.infrared), Requested(s, Depth, o.depth);
    var f1, f2, f3 := ChannelCalls(s, Color, o.color), ChannelCalls(s, Infrared, o.infrared), ChannelCalls(s, Depth, o.depth);
    assert {m} + rc + ri + rd == ({m} + ri + rd) + rc;
    ChannelHeld({m} + ri + rd, s, Color, o.color);
    assert {m} + ri + rd == ({m} + rd) + ri;
    ChannelHeld({m} + rd, s, Infrared, o.infrared);
    ChannelHeld({m}, s, Depth, o.depth);
    HeldAppend({m} + rc + ri + rd, f1 + f2, f3);
    HeldAppend({m} + rc + ri + rd, f1, f2);
  }

  /**
    Handle balance: across one Capture call every handle the runtime hands
    out (each failed poll's frame, the multi-source frame, every wanted
    channel's reference, frame and frame description) is released exactly
    once, nothing else is released, and nothing is left held.
  */
  lemma CaptureBalanced(s: Settings, readerOpen: bool, o: CaptureOracle)
    requires readerOpen ==> EventuallySucceeds(o.polls)
    ensures Balanced(CaptureRun(s, readerOpen, o).calls)
  {
    if readerOpen {
      var m := MultiSourceFrame(FirstSuccess(o.polls));
      var p, r, x := PollCalls(o.polls), RequestPhase(s, o), ProcessPhase(s, o);
      var all := {m} + Requested(s, Color, o.color) + Requested(s, Infrared, o.infrared) + Requested(s, Depth, o.depth);
      assert Held({}, p) == Some({m}) by { PollPhaseHeld(o.polls); }
      assert Held({m}, r) == Some(all) by { RequestPhaseHeld(s, o, m); }
      assert Held(all, x) == Some({m}) by { ProcessPhaseHeld(s, o, m); }
      assert Held({m}, [Release(m)]) == Some({}) by {
        HeldOne({m}, Release(m));
        assert {m} - {m} == {};
      }
      assert Held({}, p + r + x + [Release(m)]) == Some({}) by {
        HeldAppend({}, p + r + x, [Release(m)]);
        HeldAppend({}, p + r, x);
        HeldAppend({}, p, r);
      }
      assert CaptureRun(s, readerOpen, o).calls == p + r + x + [Release(m)];
    }
  }

  /** No point of a Capture breaks the discipline: every prefix of its calls releases only what is held. */
  lemma CaptureNeverViolates(s: Settings, readerOpen: bool, o: CaptureOracle)
    requires readerOpen ==> EventuallySucceeds(o.polls)
    ensures var t := CaptureRun(s, readerOpen, o).calls;
      forall k :: 0 <= k <= |t| ==> Held({}, t[..k]).Some?
  {
    CaptureBalanced(s, readerOpen, o);
    NoViolationInBalanced(CaptureRun(s, readerOpen, o).calls);
  }

  // ---------------------------------------------------------------- order of requests and processing

  /** A request of a channel's data from the multi-source frame. */
  predicate IsRequest(e: Event)
  {
    e.GetFrameReference? || e.AcquireFrame?
  }

  /** A call made by a Process* call. */
  predicate IsProcessing(e: Event)
  {
    e.GetFrameDescription? || e.CopyFrameData? || e.WriteImage?
  }

  lemma {:induction false} FailedPollsAreQuiet(polls: seq<PollOutcome>, n: nat)
    requires n <= |polls|
    ensures forall i :: 0 <= i < |FailedPollCalls(polls, n)| ==>
      FailedPollCalls(polls, n)[i].AcquireLatestFrame? || FailedPollCalls(polls, n)[i].Release?
    ensures forall i :: 0 <= i < |FailedPollCalls(polls, n)| ==>
      FailedPollCalls(polls, n)[i].Release? ==> FailedPollCalls(polls, n)[i].handle.MultiSourceFrame?
  {
    if n > 0 {
      FailedPollsAreQuiet(polls, n - 1);
    }
  }

  lemma RequestPhaseRequests(s: Settings, o: CaptureOracle)
    ensures forall i :: 0 <= i < |RequestPhase(s, o)| ==> IsRequest(RequestPhase(s, o)[i])
  {
  }

  lemma ChannelCallsDoNotRequest(s: Settings, ch: Channel, c: ChannelOracle)
    ensures forall i :: 0 <= i < |ChannelCalls(s, ch, c)| ==> !IsRequest(ChannelCalls(s, ch, c)[i])
  {
  }

  lemma ProcessPhaseDoesNotRequest(s: Settings, o: CaptureOracle)
    ensures forall i :: 0 <= i < |ProcessPhase(s, o)| ==> !IsRequest(ProcessPhase(s, o)[i])
  {
    ChannelCallsDoNotRequest(s, Color, o.color);
    ChannelCallsDoNotRequest(s, Infrared, o.infrared);
    ChannelCallsDoNotRequest(s, Depth, o.depth);
  }

  lemma PollCallsAreQuiet(polls: seq<PollOutcome>)
    requires EventuallySucceeds(polls)
    ensures forall i :: 0 <= i < |PollCalls(polls)| ==> !IsRequest(PollCalls(polls)[i]) && !IsProcessing(PollCalls(polls)[i])
  {
    FailedPollsAreQuiet(polls, FirstSuccess(polls));
  }

  /** In quiet calls, then requests, then calls that request nothing, every request comes before every processing call. */
  lemma PhasesInOrder(p: seq<Event>, r: seq<Event>, x: seq<Event>)
    requires forall i :: 0 <= i < |p| ==> !IsRequest(p[i]) && !IsProcessing(p[i])
    requires forall i :: 0 <= i < |r| ==> IsRequest(r[i])
    requires forall i :: 0 <= i < |x| ==> !IsRequest(x[i])
    ensures var t := p + r + x;
      forall i, j :: 0 <= i < |t| && 0 <= j < |t| && IsRequest(t[i]) && IsProcessing(t[j]) ==> i < j
  {
    var t := p + r + x;
    forall i, j | 0 <= i < |t| && 0 <= j < |t| && IsRequest(t[i]) && IsProcessing(t[j])
      ensures i < j
    {
    }
  }

  /**
    Every wanted channel's reference and frame are requested before any
    channel's processing begins: no request follows a processing call.
  */
  lemma RequestsPrecedeProcessing(s: Settings, o: CaptureOracle)
    requires EventuallySucceeds(o.polls)
    ensures var t := CaptureRun(s, true, o).calls;
      forall i, j :: 0 <= i < |t| && 0 <= j < |t| && IsRequest(t[i]) && IsProcessing(t[j]) ==> i < j
  {
    var p, r, x := PollCalls(o.polls), RequestPhase(s, o), ProcessPhase(s, o);
    var rest := x + [Release(MultiSourceFrame(FirstSuccess(o.polls)))];
    PollCallsAreQuiet(o.polls);
    RequestPhaseRequests(s, o);
    ProcessPhaseDoesNotRequest(s, o);
    assert forall i :: 0 <= i < |rest| ==> !IsRequest(rest[i]) by {
      forall i | 0 <= i < |rest| ensures !IsRequest(rest[i]) {
        if i < |x| {
          assert rest[i] == x[i];
        }
      }
    }
    PhasesInOrder(p, r, rest);
    assert CaptureRun(s, true, o).calls == p + r + rest;
  }

  // ---------------------------------------------------------------- channel independence

  /** The call concerns the given channel: its reference, frame, description, copy, write, or their release. */
  predicate About(e: Event, ch: Channel)
  {
    match e
    case GetFrameReference(c, _, _) => c == ch
    case AcquireFrame(c, _, _) => c == ch
    case GetFrameDescription(c, _, _) => c == ch
    case CopyFrameData(c, _, _, _) => c == ch
    case WriteImage(c, _, _, _) => c == ch
    case Release(h) => h == FrameReference(ch) || h == Frame(ch) || h == FrameDescription(ch)
    case _ => false
  }

  /** The calls of a stretch that concern one channel, in order. */
  function OfChannel(t: seq<Event>, ch: Channel): seq<Event>
  {
    if t == [] then []
    else (if About(t[0], ch) then [t[0]] else []) + OfChannel(t[1..], ch)
  }

  lemma {:induction false} OfChannelAppend(a: seq<Event>, b: seq<Event>, ch: Channel)
    ensures OfChannel(a + b, ch) == OfChannel(a, ch) + OfChannel(b, ch)
    decreases |a|
  {
    if a == [] {
      assert a + b == b;
    } else {
      assert (a + b)[0] == a[0];
      assert (a + b)[1..] == a[1..] + b;
      OfChannelAppend(a[1..], b, ch);
    }
  }

  lemma {:induction false} OfChannelAll(t: seq<Event>, ch: Channel)
    requires forall i :: 0 <= i < |t| ==> About(t[i], ch)
    ensures OfChannel(t, ch) == t
    decreases |t|
  {
    if t != [] {
      OfChannelAll(t[1..], ch);
      assert [t[0]] + t[1..] == t;
    }
  }

  lemma {:induction false} OfChannelNone(t: seq<Event>, ch: Channel)
    requires forall i :: 0 <= i < |t| ==> !About(t[i], ch)
    ensures OfChannel(t, ch) == []
    decreases |t|
  {
    if t != [] {
      OfChannelNone(t[1..], ch);
    }
  }

  /** A call about the channel is in the stretch exactly when it is among the stretch's calls about that channel. */
  lemma {:induction false} InOfChannel(t: seq<Event>, ch: Channel, e: Event)
    requires About(e, ch)
    ensures e in t <==> e in OfChannel(t, ch)
    decreases |t|
  {
    if t != [] {
      InOfChannel(t[1..], ch, e);
      assert e in t <==> e == t[0] || e in t[1..] by {
        assert t == [t[0]] + t[1..];
      }
    }
  }

  /** The calls one channel's script makes, from its request to its last release. */
  function Script(s: Settings, ch: Channel, c: ChannelOracle): seq<Event>
  {
    RequestCalls(s, ch, c) + ChannelCalls(s, ch, c)
  }

  lemma RequestCallsAbout(s: Settings, ch: Channel, c: ChannelOracle, other: Channel)
    ensures OfChannel(RequestCalls(s, ch, c), other) == if ch == other then RequestCalls(s, ch, c) else []
  {
    if ch == other {
      OfChannelAll(RequestCalls(s, ch, c), ch);
    } else {
      OfChannelNone(RequestCalls(s, ch, c), other);
    }
  }

  lemma ChannelCallsAbout(s: Settings, ch: Channel, c: ChannelOracle, other: Channel)
    ensures OfChannel(ChannelCalls(s, ch, c), other) == if ch == other then ChannelCalls(s, ch, c) else []
  {
    var t := ChannelCalls(s, ch, c);
    if ch == other {
      assert forall i :: 0 <= i < |t| ==> About(t[i], ch);
      OfChannelAll(t, ch);
    } else {
      assert forall i :: 0 <= i < |t| ==> !About(t[i], other);
      OfChannelNone(t, other);
    }
  }

  /**
    Channel independence: the calls of one Capture that concern a channel are
    exactly that channel's own script, which depends on nothing but whether
    the channel is wanted, its output path and the runtime's answers for that
    channel. A failure on any other channel changes none of them.
  */
  lemma ChannelProjection(s: Settings, o: CaptureOracle, ch: Channel)
    requires EventuallySucceeds(o.polls)
    ensures OfChannel(CaptureRun(s, true, o).calls, ch) == Script(s, ch, o.Of(ch))
  {
    var p, r, x := PollCalls(o.polls), RequestPhase(s, o), ProcessPhase(s, o);
    var last := [Release(MultiSourceFrame(FirstSuccess(o.polls)))];
    assert CaptureRun(s, true, o).calls == p + r + x + last;
    PollCallsOfChannel(o.polls, ch);
    OfChannelNone(last, ch);
    RequestPhaseOfChannel(s, o, ch);
    ProcessPhaseOfChannel(s, o, ch);
    OfChannelAppend4(p, r, x, last, ch);
    AssembleScript(OfChannel(p, ch), OfChannel(r, ch), OfChannel(x, ch), OfChannel(last, ch),
                   RequestCalls(s, ch, o.Of(ch)), ChannelCalls(s, ch, o.Of(ch)));
  }

  lemma AssembleScript(p: seq<Event>, r: seq<Event>, x: seq<Event>, last: seq<Event>, requests: seq<Event>, rest: seq<Event>)
    requires p == [] && last == [] && r == requests && x == rest
    ensures p + r + x + last == requests + rest
  {
    assert [] + requests == requests;
    assert requests + rest + [] == requests + rest;
  }

  lemma OfChannelAppend4(a: seq<Event>, b: seq<Event>, c: seq<Event>, d: seq<Event>, ch: Channel)
    ensures OfChannel(a + b + c + d, ch) == OfChannel(a, ch) + OfChannel(b, ch) + OfChannel(c, ch) + OfChannel(d, ch)
  {
    OfChannelAppend(a, b, ch);
    OfChannelAppend(a + b, c, ch);
    OfChannelAppend(a + b + c, d, ch);
  }

  lemma PollCallsOfChannel(polls: seq<PollOutcome>, ch: Channel)
    requires EventuallySucceeds(polls)
    ensures OfChannel(PollCalls(polls), ch) == []
  {
    var t := PollCalls(polls);
    FailedPollsAreQuiet(polls, FirstSuccess(polls));
    assert forall i :: 0 <= i < |t| ==> !About(t[i], ch);
    OfChannelNone(t, ch);
  }

  lemma RequestPhaseOfChannel(s: Settings, o: CaptureOracle, ch: Channel)
    ensures OfChannel(RequestPhase(s, o), ch) == RequestCalls(s, ch, o.Of(ch))
  {
    RequestCallsAbout(s, Color, o.color, ch);
    RequestCallsAbout(s, Infrared, o.infrared, ch);
    RequestCallsAbout(s, Depth, o.depth, ch);
    var c1, c2, c3 := RequestCalls(s, Color, o.color), RequestCalls(s, Infrared, o.infrared), RequestCalls(s, Depth, o.depth);
    OfChannelAppend(c1, c2, ch);
    OfChannelAppend(c1 + c2, c3, ch);
  }

  lemma ProcessPhaseOfChannel(s: Settings, o: CaptureOracle, ch: Channel)
    ensures OfChannel(ProcessPhase(s, o), ch) == ChannelCalls(s, ch, o.Of(ch))
  {
    var f1, f2, f3 := ChannelCalls(s, Color, o.color), ChannelCalls(s, Infrared, o.infrared), ChannelCalls(s, Depth, o.depth);
    OfChannelAppend(f1, f2, ch);
    OfChannelAppend(f1 + f2, f3, ch);
    ChannelCallsAbout(s, Color, o.color, ch);
    ChannelCallsAbout(s, Infrared, o.infrared, ch);
    ChannelCallsAbout(s, Depth, o.depth, ch);
    match ch
    case Color => OnlyFirst(f1, [], []);
    case Infrared => OnlySecond([], f2, []);
    case Depth => OnlyThird([], [], f3);
  }

  lemma OnlyFirst(a: seq<Event>, b: seq<Event>, c: seq<Event>)
    requires b == [] && c == []
    ensures a + b + c == a
  {
  }

  lemma OnlySecond(a: seq<Event>, b: seq<Event>, c: seq<Event>)
    requires a == [] && c == []
    ensures a + b + c == b
  {
  }

  lemma OnlyThird(a: seq<Event>, b: seq<Event>, c: seq<Event>)
    requires a == [] && b == []
    ensures a + b + c == c
  {
  }

  /** Apart from its requests and releases, a wanted channel's script is its processing, when its frame was acquired. */
  lemma InScript(s: Settings, ch: Channel, c: ChannelOracle, e: Event)
    requires !IsRequest(e) && !e.Release?
    ensures e in Script(s, ch, c)
            <==> s.Wanted(ch) && Succeeded(c.acquireStatus) && e in ProcessCalls(ch, s.Output(ch), c)
  {
    if s.Wanted(ch) {
      var process := if Succeeded(c.acquireStatus) then ProcessCalls(ch, s.Output(ch), c) else [];
      var r, rel := RequestCalls(s, ch, c), ReleaseCalls(ChannelFrame(ch, c)) + [Release(FrameReference(ch))];
      assert Script(s, ch, c) == r + (process + rel);
      assert e !in r;
      assert e !in rel;
    }
  }

  /**
    Of one Process* call: the frame is described and copied into a buffer of
    the described size; the sink is called, with the path and that buffer,
    only when the copy succeeded.
  */
  lemma InProcessCalls(ch: Channel, path: string, c: ChannelOracle)
    ensures GetFrameDescription(ch, c.descriptionStatus, NonNull(FrameDescription(ch))) in ProcessCalls(ch, path, c)
    ensures CopyFrameData(ch, CopyCapacity(ch, c.width, c.height), ChannelBuffer(ch, c.width, c.height), c.copyStatus)
            in ProcessCalls(ch, path, c)
    ensures forall p, b, w ::
      WriteImage(ch, p, b, w) in ProcessCalls(ch, path, c)
      <==> Succeeded(c.copyStatus) && p == path && b == ChannelBuffer(ch, c.width, c.height) && w == c.written
  {
    var t := ProcessCalls(ch, path, c);
    var img := ChannelBuffer(ch, c.width, c.height);
    assert t[0] == GetFrameDescription(ch, c.descriptionStatus, NonNull(FrameDescription(ch)));
    assert t[2] == CopyFrameData(ch, CopyCapacity(ch, c.width, c.height), img, c.copyStatus);
    forall p, b, w
      ensures WriteImage(ch, p, b, w) in t <==> Succeeded(c.copyStatus) && p == path && b == img && w == c.written
    {
      var head := t[..3];
      assert t == head + t[3..];
      assert WriteImage(ch, p, b, w) !in head;
    }
  }

  /**
    A wanted channel is processed (its frame described, its data copied with
    the channel's capacity into a buffer of the described size) exactly when
    its own frame was acquired, whatever happened to the other channels; an
    unwanted channel is never processed.
  */
  lemma ProcessedIffAcquired(s: Settings, o: CaptureOracle, ch: Channel)
    requires EventuallySucceeds(o.polls)
    ensures var t, c := CaptureRun(s, true, o).calls, o.Of(ch);
      (GetFrameDescription(ch, c.descriptionStatus, NonNull(FrameDescription(ch))) in t
       <==> s.Wanted(ch) && Succeeded(c.acquireStatus))
      && (CopyFrameData(ch, CopyCapacity(ch, c.width, c.height), ChannelBuffer(ch, c.width, c.height), c.copyStatus) in t
          <==> s.Wanted(ch) && Succeeded(c.acquireStatus))
  {
    var t, c := CaptureRun(s, true, o).calls, o.Of(ch);
    var described := GetFrameDescription(ch, c.descriptionStatus, NonNull(FrameDescription(ch)));
    var copied := CopyFrameData(ch, CopyCapacity(ch, c.width, c.height), ChannelBuffer(ch, c.width, c.height), c.copyStatus);
    ChannelProjection(s, o, ch);
    InProcessCalls(ch, s.Output(ch), c);
    InScript(s, ch, c, described);
    InScript(s, ch, c, copied);
    InOfChannel(t, ch, described);
    InOfChannel(t, ch, copied);
  }

  /**
    The sink is called for a channel exactly when the channel is wanted, its
    frame was acquired and its copy succeeded; it is then given the channel's
    output path and the buffer the frame was copied into.
  */
  lemma WrittenIffCopied(s: Settings, o: CaptureOracle, ch: Channel, path: string, buffer: FrameBuffer)
    requires EventuallySucceeds(o.polls)
    ensures var t, c := CaptureRun(s, true, o).calls, o.Of(ch);
      WriteImage(ch, path, buffer, c.written) in t
      <==> s.Wanted(ch) && Succeeded(c.acquireStatus) && Succeeded(c.copyStatus)
           && path == s.Output(ch) && buffer == ChannelBuffer(ch, c.width, c.height)
  {
    var t, c := CaptureRun(s, true, o).calls, o.Of(ch);
    var written := WriteImage(ch, path, buffer, c.written);
    ChannelProjection(s, o, ch);
    InProcessCalls(ch, s.Output(ch), c);
    InScript(s, ch, c, written);
    InOfChannel(t, ch, written);
  }

  /** An unwanted channel gets no reference request, no acquire, no processing and no release. */
  lemma UnwantedUntouched(s: Settings, o: CaptureOracle, ch: Channel, e: Event)
    requires EventuallySucceeds(o.polls)
    requires !s.Wanted(ch) && About(e, ch)
    ensures e !in CaptureRun(s, true, o).calls
  {
    ChannelProjection(s, o, ch);
    InOfChannel(CaptureRun(s, true, o).calls, ch, e);
  }

  /** A wanted channel's reference and frame are both requested, and both are released. */
  lemma WantedRequested(s: Settings, o: CaptureOracle, ch: Channel)
    requires EventuallySucceeds(o.polls)
    requires s.Wanted(ch)
    ensures var t, c := CaptureRun(s, true, o).calls, o.Of(ch);
      GetFrameReference(ch, c.referenceStatus, NonNull(FrameReference(ch))) in t
      && AcquireFrame(ch, c.acquireStatus, ChannelFrame(ch, c)) in t
      && Release(FrameReference(ch)) in t
      && (ChannelFrame(ch, c).NonNull? ==> Release(Frame(ch)) in t)
  {
    var t, c := CaptureRun(s, true, o).calls, o.Of(ch);
    var reference, acquire := GetFrameReference(ch, c.referenceStatus, NonNull(FrameReference(ch))), AcquireFrame(ch, c.acquireStatus, ChannelFrame(ch, c));
    ChannelProjection(s, o, ch);
    WantedScript(s, ch, c);
    InOfChannel(t, ch, reference);
    InOfChannel(t, ch, acquire);
    InOfChannel(t, ch, Release(FrameReference(ch)));
    InOfChannel(t, ch, Release(Frame(ch)));
  }

  /** A wanted channel's script requests its reference and frame and releases both (the frame when one was handed back). */
  lemma WantedScript(s: Settings, ch: Channel, c: ChannelOracle)
    requires s.Wanted(ch)
    ensures GetFrameReference(ch, c.referenceStatus, NonNull(FrameReference(ch))) in Script(s, ch, c)
    ensures AcquireFrame(ch, c.acquireStatus, ChannelFrame(ch, c)) in Script(s, ch, c)
    ensures Release(FrameReference(ch)) in Script(s, ch, c)
    ensures ChannelFrame(ch, c).NonNull? ==> Release(Frame(ch)) in Script(s, ch, c)
  {
    var r := RequestCalls(s, ch, c);
    var process := if Succeeded(c.acquireStatus) then ProcessCalls(ch, s.Output(ch), c) else [];
    var frames := ReleaseCalls(ChannelFrame(ch, c));
    var rel := frames + [Release(FrameReference(ch))];
    assert Script(s, ch, c) == r + process + rel;
    assert r[0] == GetFrameReference(ch, c.referenceStatus, NonNull(FrameReference(ch)));
    assert r[1] == AcquireFrame(ch, c.acquireStatus, ChannelFrame(ch, c));
    assert rel[|rel| - 1] == Release(FrameReference(ch));
    if ChannelFrame(ch, c).NonNull? {
      assert rel[0] == Release(Frame(ch));
    }
  }

  // ---------------------------------------------------------------- the returned status

  /** Without a reader Capture refuses at once: E_NOT_VALID_STATE and not a single call. */
  lemma NotReadyRefused(s: Settings, o: CaptureOracle)
    ensures CaptureRun(s, false, o) == Run(E_NOT_VALID_STATE, [])
    ensures Failed(CaptureRun(s, false, o).status) && CaptureRun(s, false, o).status != E_FAIL
  {
  }

  /**
    For any selection of channels, Capture returns S_OK exactly when every
    wanted channel's frame was acquired and copied and every unwanted
    channel's never-assigned status variable happens to hold a success value;
    otherwise it returns E_FAIL.
  */
  lemma StatusAnySelection(s: Settings, o: CaptureOracle)
    requires EventuallySucceeds(o.polls)
    ensures var hr := CaptureRun(s, true, o).status;
      (hr == S_OK <==> forall ch: Channel ::
         (s.Wanted(ch) ==> Succeeded(o.Of(ch).acquireStatus) && Succeeded(o.Of(ch).copyStatus))
         && (!s.Wanted(ch) ==> Succeeded(o.Of(ch).indeterminate)))
      && (hr != S_OK ==> hr == E_FAIL)
  {
    forall ch: Channel
      ensures Succeeded(ChannelStatus(s, ch, o.Of(ch))) <==>
        (s.Wanted(ch) ==> Succeeded(o.Of(ch).acquireStatus) && Succeeded(o.Of(ch).copyStatus))
        && (!s.Wanted(ch) ==> Succeeded(o.Of(ch).indeterminate))
    {
    }
  }

  /**
    With every channel wanted (the constructor's default), Capture returns
    S_OK exactly when every channel's frame was acquired and copied, and
    E_FAIL otherwise; the sink's answers play no part.
  */
  lemma AllWantedStatus(s: Settings, o: CaptureOracle)
    requires EventuallySucceeds(o.polls)
    requires s.colorWanted && s.infraredWanted && s.depthWanted
    ensures var hr := CaptureRun(s, true, o).status;
      (hr == S_OK <==> forall ch: Channel :: Succeeded(o.Of(ch).acquireStatus) && Succeeded(o.Of(ch).copyStatus))
      && (hr != S_OK ==> hr == E_FAIL)
  {
    StatusAnySelection(s, o);
    assert forall ch: Channel :: s.Wanted(ch) by {
      forall ch: Channel ensures s.Wanted(ch) {
        match ch
        case Color =>
        case Infrared =>
        case Depth =>
      }
    }
  }

  /**
    The status depends only on each channel's acquire and copy results and,
    for an unwanted channel, on its indeterminate status value: the reference
    and description results, the frame sizes, the sink's answers and the poll
    history are ignored.
  */
  lemma StatusIgnores(s: Settings, o: CaptureOracle, o': CaptureOracle)
    requires EventuallySucceeds(o.polls) && EventuallySucceeds(o'.polls)
    requires forall ch: Channel ::
      o.Of(ch).acquireStatus == o'.Of(ch).acquireStatus
      && o.Of(ch).copyStatus == o'.Of(ch).copyStatus
      && o.Of(ch).indeterminate == o'.Of(ch).indeterminate
    ensures CaptureRun(s, true, o).status == CaptureRun(s, true, o').status
  {
    assert o.Of(Color) == o.color && o'.Of(Color) == o'.color;
    assert o.Of(Infrared) == o.infrared && o'.Of(Infrared) == o'.infrared;
    assert o.Of(Depth) == o.depth && o'.Of(Depth) == o'.depth;
  }

  /** A processor whose copy succeeded reports success even when the sink failed to write. */
  lemma FailedWriteStillSucceeds(s: Settings, ch: Channel, c: ChannelOracle)
    requires s.Wanted(ch) && Succeeded(c.acquireStatus) && Succeeded(c.copyStatus) && !c.written
    ensures Succeeded(ChannelStatus(s, ch, c))
  {
  }

  /**
    An unwanted channel's status variable is never assigned but still read:
    when its indeterminate value is a failure Capture returns E_FAIL, however
    well the wanted channels did.
  */
  lemma UnwantedIndeterminateDecides(s: Settings, o: CaptureOracle, ch: Channel)
    requires EventuallySucceeds(o.polls)
    requires !s.Wanted(ch) && Failed(o.Of(ch).indeterminate)
    ensures CaptureRun(s, true, o).status == E_FAIL
  {
    assert ChannelStatus(s, ch, o.Of(ch)) == o.Of(ch).indeterminate;
  }

  // ---------------------------------------------------------------- SafeRelease

  /**
    SafeRelease releases a held handle exactly once and nothing for a null
    pointer; since it leaves the pointer null, a second call makes no call
    at all, so calling it twice is the same as calling it once. Without the
    nulling, the second release would break the discipline.
  */
  lemma SafeReleaseDiscipline(held: set<Handle>, p: Ptr)
    requires p.NonNull? ==> p.handle in held
    ensures |ReleaseCalls(p)| == (if p.NonNull? then 1 else 0)
    ensures Held(held, ReleaseCalls(p)) == Some(if p.NonNull? then held - {p.handle} else held)
    ensures ReleaseCalls(p) + ReleaseCalls(Null) == ReleaseCalls(p)
    ensures p.NonNull? ==> Held(held, ReleaseCalls(p) + ReleaseCalls(p)) == None
  {
    if p.NonNull? {
      HeldOne(held, Release(p.handle));
      DoubleReleaseBreaks(held, p.handle);
      assert ReleaseCalls(p) + ReleaseCalls(p) == [Release(p.handle), Release(p.handle)];
    }
  }

  // ---------------------------------------------------------------- a concrete capture

  /**
    Color and depth wanted, infrared not; the frame arrives at the third
    poll; color is 1920 x 1080 and depth 512 x 424, every call succeeds.
    The poll loop logs 2 (the failed attempts). Color is copied with a
    capacity of 1920 * 1080 * 4 bytes into a BGRA buffer of that many bytes,
    depth with a capacity of 512 * 424 16-bit elements into a buffer of
    512 * 424 * 2 bytes, and the sink is given those two buffers. Infrared
    is never touched, and the returned status is then decided by the
    uninitialised infrared status variable.
  */
  lemma ColorAndDepthCapture(infrared: ChannelOracle)
    ensures
      var s := Settings(true, false, true, "TestColor.png", "TestInfrared.png", "TestDepth.png");
      var polls := [PollOutcome(E_FAIL, false), PollOutcome(E_FAIL, false), PollOutcome(S_OK, false)];
      var color := ChannelOracle(S_OK, S_OK, false, S_OK, 1920, 1080, S_OK, true, S_OK);
      var depth := ChannelOracle(S_OK, S_OK, false, S_OK, 512, 424, S_OK, true, S_OK);
      var o := CaptureOracle(polls, color, infrared, depth);
      var run := CaptureRun(s, true, o);
      var colorBuffer, depthBuffer := FrameBuffer(1080, 1920, U8C4), FrameBuffer(424, 512, U16C1);
      FirstSuccess(polls) == 2
      && Attempts(PollCalls(polls)) == [0, 1, 2]
      && colorBuffer.ByteLength() == 8294400 && depthBuffer.ByteLength() == 434176
      && CopyFrameData(Color, 8294400, colorBuffer, S_OK) in run.calls
      && CopyFrameData(Depth, 217088, depthBuffer, S_OK) in run.calls
      && WriteImage(Color, "TestColor.png", colorBuffer, true) in run.calls
      && WriteImage(Depth, "TestDepth.png", depthBuffer, true) in run.calls
      && (forall e :: e in run.calls ==> !About(e, Infrared))
      && Balanced(run.calls)
      && (run.status == S_OK <==> Succeeded(infrared.indeterminate))
  {
    var s := Settings(true, false, true, "TestColor.png", "TestInfrared.png", "TestDepth.png");
    var polls := [PollOutcome(E_FAIL, false), PollOutcome(E_FAIL, false), PollOutcome(S_OK, false)];
    var color := ChannelOracle(S_OK, S_OK, false, S_OK, 1920, 1080, S_OK, true, S_OK);
    var depth := ChannelOracle(S_OK, S_OK, false, S_OK, 512, 424, S_OK, true, S_OK);
    var o := CaptureOracle(polls, color, infrared, depth);
    var run := CaptureRun(s, true, o);
    var colorBuffer, depthBuffer := FrameBuffer(1080, 1920, U8C4), FrameBuffer(424, 512, U16C1);
    assert EventuallySucceeds(polls[2..]);
    assert EventuallySucceeds(polls[1..]);
    assert polls[1..][1..] == polls[2..];
    assert FirstSuccess(polls) == 2;
    PollAttempts(polls);
    assert Upto(3) == [0, 1, 2];
    assert ChannelBuffer(Color, 1920, 1080) == colorBuffer && ChannelBuffer(Depth, 512, 424) == depthBuffer;
    assert CopyCapacity(Color, 1920, 1080) == 8294400;
    assert CopyCapacity(Depth, 512, 424) == 217088;
    ProcessedIffAcquired(s, o, Color);
    ProcessedIffAcquired(s, o, Depth);
    WrittenIffCopied(s, o, Color, "TestColor.png", colorBuffer);
    WrittenIffCopied(s, o, Depth, "TestDepth.png", depthBuffer);
    forall e | e in run.calls ensures !About(e, Infrared) {
      if About(e, Infrared) {
        UnwantedUntouched(s, o, Infrared, e);
      }
    }
    CaptureBalanced(s, true, o);
  }
}
