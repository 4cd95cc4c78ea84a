/**
  Release discipline for interface pointers, checked over a ledger of calls:
  a handle may be handed out only while it is not held, released only while
  it is held, and a balanced stretch of calls ends holding what it started with.
*/
module HandleLedger {
  import opened KinectSdk

  datatype Option<T> = None | Some(value: T)

  /** The set of held handles after one call, or None when the call breaks the discipline. */
  function Step(held: set<Handle>, e: Event): Option<set<Handle>>
  {
    if e.Release? then
      (if e.handle in held then Some(held - {e.handle}) else None)
    else
      match Yields(e)
      case Null => Some(held)
      case NonNull(h) => if h in held then None else Some(held + {h})
  }

  /** The set of held handles after a stretch of calls, or None at the first violation. */
  function Held(held: set<Handle>, calls: seq<Event>): Option<set<Handle>>
    decreases |calls|
  {
    if calls == [] then Some(held)
    else match Step(held, calls[0])
      case None => None
      case Some(next) => Held(next, calls[1..])
  }

  /** Continues a partial run of Held with more calls. */
  function Then(start: Option<set<Handle>>, calls: seq<Event>): Option<set<Handle>>
  {
    match start
    case None => None
    case Some(held) => Held(held, calls)
  }

  /**
    Every handle handed out is released exactly once, nothing is released that
    was not handed out and still held, and nothing is left held at the end.
  */
  predicate Balanced(calls: seq<Event>)
  {
    Held({}, calls) == Some({})
  }

  lemma {:induction false} HeldAppend(held: set<Handle>, a: seq<Event>, b: seq<Event>)
    ensures Held(held, a + b) == Then(Held(held, a), b)
    decreases |a|
  {
    if a == [] {
      assert a + b == b;
    } else {
      assert (a + b)[0] == a[0];
      assert (a + b)[1..] == a[1..] + b;
      match Step(held, a[0])
      case None =>
      case Some(next) => HeldAppend(next, a[1..], b);
    }
  }

  lemma HeldOne(held: set<Handle>, e: Event)
    ensures Held(held, [e]) == Step(held, e)
  {
    assert [e][1..] == [];
  }

  /** A violation can never be repaired by later calls. */
  lemma {:induction false} ViolationIsFinal(held: set<Handle>, a: seq<Event>, b: seq<Event>)
    requires Held(held, a) == None
    ensures Held(held, a + b) == None
  {
    HeldAppend(held, a, b);
  }

  /** A balanced stretch breaks the discipline at no point: every prefix of it is free of violations. */
  lemma NoViolationInBalanced(calls: seq<Event>)
    requires Balanced(calls)
    ensures forall k :: 0 <= k <= |calls| ==> Held({}, calls[..k]).Some?
  {
    forall k | 0 <= k <= |calls|
      ensures Held({}, calls[..k]).Some?
    {
      assert calls[..k] + calls[k..] == calls;
      if Held({}, calls[..k]) == None {
        ViolationIsFinal({}, calls[..k], calls[k..]);
      }
    }
  }

  /** Releasing the same handle twice in a row is always a violation, whatever was held before. */
  lemma {:induction false} DoubleReleaseBreaks(held: set<Handle>, h: Handle)
    ensures Held(held, [Release(h), Release(h)]) == None
  {
    var once := [Release(h)];
    HeldAppend(held, once, once);
    assert once + once == [Release(h), Release(h)];
    if h in held {
      assert Held(held, once) == Some(held - {h});
      assert Held(held - {h}, once) == None;
    } else {
      assert Held(held, once) == None;
    }
  }
}
