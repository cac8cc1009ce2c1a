/** The simpler hand tracker: each detected hand drags the pointer's x toward its index
    fingertip through the smoothing filter, while a `running` flag and the camera's
    release decide how long the tracking loop goes on. */
module Hand1 {
  import opened Common

  /** The frame width the fingertip's normalised x is scaled by. */
  const AssumedFrameWidth: real := 800.0
  const MoveDuration: real := 0.05

  /** A pyautogui.moveTo(x, y, duration) call. */
  datatype Move = MoveTo(x: real, y: real, duration: real)

  /** cx = int(index_tip.x * 800). */
  function TargetX(tip: Landmark): (cx: int)
    ensures 0.0 <= tip.x <= 1.0 ==> 0 <= cx <= 800
  {
    var v := tip.x * AssumedFrameWidth;
    assert 0.0 <= tip.x <= 1.0 ==> v <= 800.0 by {
      if 0.0 <= tip.x <= 1.0 {
        assert tip.x * 800.0 <= 1.0 * 800.0;
      }
    }
    Trunc(v)
  }

  /** The tracker's globals. */
  datatype TrackerState = TrackerState(prevX: real, prevY: real, running: bool, released: bool)

  /** The per-hand loop of _handle_hand_tracking, from the x it starts at: the final x
      and the moves issued, one per hand in order. */
  function TrackHands(x: real, y: real, tips: seq<Landmark>): (r: (real, seq<Move>))
    ensures |r.1| == |tips|
    ensures forall i | 0 <= i < |tips| :: r.1[i].y == y && r.1[i].duration == MoveDuration
    ensures tips == [] ==> r.0 == x
    ensures tips != [] ==> r.1[|tips| - 1].x == r.0
    ensures tips != [] ==> r.1[0].x == Smooth(x, TargetX(tips[0]) as real)
    decreases |tips|
  {
    if tips == [] then (x, [])
    else
      var nx := Smooth(x, TargetX(tips[0]) as real);
      var rest := TrackHands(nx, y, tips[1..]);
      (rest.0, [MoveTo(nx, y, MoveDuration)] + rest.1)
  }

  /** Each move's x is one smoothing step from the previous move's x (or from the
      starting x) toward that hand's fingertip target: only x is filtered. */
  lemma {:induction false} EachMoveSmoothed(x: real, y: real, tips: seq<Landmark>, i: nat)
    requires 0 < i < |tips|
    ensures TrackHands(x, y, tips).1[i].x ==
            Smooth(TrackHands(x, y, tips).1[i - 1].x, TargetX(tips[i]) as real)
    decreases i
  {
    var nx := Smooth(x, TargetX(tips[0]) as real);
    assert TrackHands(x, y, tips).1 == [MoveTo(nx, y, MoveDuration)] + TrackHands(nx, y, tips[1..]).1;
    if i > 1 {
      EachMoveSmoothed(nx, y, tips[1..], i - 1);
    }
    assert tips[1..][i - 1] == tips[i];
  }

  /** If the start and every fingertip target lie in [lo, hi], so does every move. */
  lemma {:induction false} MovesStayInBand(x: real, y: real, tips: seq<Landmark>, lo: real, hi: real)
    requires lo <= x <= hi
    requires forall i | 0 <= i < |tips| :: lo <= TargetX(tips[i]) as real <= hi
    ensures lo <= TrackHands(x, y, tips).0 <= hi
    ensures forall i | 0 <= i < |tips| :: lo <= TrackHands(x, y, tips).1[i].x <= hi
    decreases |tips|
  {
    if tips != [] {
      var nx := Smooth(x, TargetX(tips[0]) as real);
      assert lo <= nx <= hi;
      MovesStayInBand(nx, y, tips[1..], lo, hi);
      var ms := TrackHands(x, y, tips).1;
      assert ms == [MoveTo(nx, y, MoveDuration)] + TrackHands(nx, y, tips[1..]).1;
      forall i | 0 <= i < |tips|
        ensures lo <= ms[i].x <= hi
      {
        if i > 0 {
          assert ms[i] == TrackHands(nx, y, tips[1..]).1[i - 1];
        }
      }
    }
  }

  /** A single hand held at one fingertip position for n frames settles geometrically:
      the remaining gap is the first one shrunk n times by 0.7 (0.7^n times it, by
      DecayIsPow). */
  lemma HeldHandSettles(x: real, y: real, tip: Landmark, n: nat)
    ensures TargetX(tip) as real - HeldX(x, y, tip, n) == Decay(TargetX(tip) as real - x, n)
  {
    HeldIsSmoothN(x, y, tip, n);
    SmoothConverges(x, TargetX(tip) as real, n);
  }

  /** The x after n frames each showing the same single hand. */
  function HeldX(x: real, y: real, tip: Landmark, n: nat): real
  {
    if n == 0 then x else TrackHands(HeldX(x, y, tip, n - 1), y, [tip]).0
  }

  lemma {:induction false} HeldIsSmoothN(x: real, y: real, tip: Landmark, n: nat)
    ensures HeldX(x, y, tip, n) == SmoothN(x, TargetX(tip) as real, n)
  {
    if n > 0 {
      HeldIsSmoothN(x, y, tip, n - 1);
      assert [tip][1..] == [];
    }
  }

  /** One loop iteration's input: the camera read (the index tips of the detected
      hands, or None when the read fails), and whether terminate_tracking runs while
      the loop is suspended in the sleep that follows. */
  datatype Tick = Tick(read: Option<seq<Landmark>>, terminateDuringSleep: bool)

  /** _tracking_loop: the final state, the moves issued and the number of frames
      handled. A released camera never delivers a frame. */
  function TrackingLoop(s: TrackerState, ticks: seq<Tick>): (r: (TrackerState, seq<Move>, nat))
    ensures r.2 <= |ticks|
    ensures r.0.prevY == s.prevY
    ensures s.running && !s.released ==> r.0.running == !r.0.released
    decreases |ticks|
  {
    if !s.running || ticks == [] then (s, [], 0)
    else if s.released || ticks[0].read.None? then (s, [], 0)
    else
      var hands := TrackHands(s.prevX, s.prevY, ticks[0].read.value);
      var s1 := s.(prevX := hands.0);
      var s2 := if ticks[0].terminateDuringSleep then s1.(running := false, released := true) else s1;
      var rest := TrackingLoop(s2, ticks[1..]);
      (rest.0, hands.1 + rest.1, rest.2 + 1)
  }

  /** One handled frame of the loop, unfolded. */
  lemma TrackingLoopStep(s: TrackerState, ticks: seq<Tick>, s2: TrackerState)
    requires s.running && !s.released && ticks != [] && ticks[0].read.Some?
    requires s2 == (var x := TrackHands(s.prevX, s.prevY, ticks[0].read.value).0;
                    if ticks[0].terminateDuringSleep then s.(prevX := x, running := false, released := true)
                    else s.(prevX := x))
    ensures TrackingLoop(s, ticks).0 == TrackingLoop(s2, ticks[1..]).0
    ensures TrackingLoop(s, ticks).1 == TrackHands(s.prevX, s.prevY, ticks[0].read.value).1 + TrackingLoop(s2, ticks[1..]).1
    ensures TrackingLoop(s, ticks).2 == TrackingLoop(s2, ticks[1..]).2 + 1
  {
  }

  /** The number of hands over a run of successful reads. */
  function HandCount(ticks: seq<Tick>): nat
  {
    if ticks == [] then 0
    else (if ticks[0].read.Some? then |ticks[0].read.value| else 0) + HandCount(ticks[1..])
  }

  /** The loop issues one move per hand of every frame it handles, every move keeps
      y where it was, and only the frames before the stop are handled. */
  lemma {:induction false} LoopMoves(s: TrackerState, ticks: seq<Tick>)
    ensures var (_, moves, frames) := TrackingLoop(s, ticks);
            && |moves| == HandCount(ticks[..frames])
            && (forall i | 0 <= i < |moves| :: moves[i].y == s.prevY && moves[i].duration == MoveDuration)
            && (forall k | 0 <= k < frames :: ticks[k].read.Some?)
    decreases |ticks|
  {
    if s.running && ticks != [] && !s.released && ticks[0].read.Some? {
      var hands := TrackHands(s.prevX, s.prevY, ticks[0].read.value);
      var s1 := s.(prevX := hands.0);
      var s2 := if ticks[0].terminateDuringSleep then s1.(running := false, released := true) else s1;
      LoopMoves(s2, ticks[1..]);
      var rest := TrackingLoop(s2, ticks[1..]);
      var frames := rest.2 + 1;
      assert ticks[..frames][0] == ticks[0];
      assert ticks[..frames][1..] == ticks[1..][..rest.2];
      var moves := hands.1 + rest.1;
      forall i | 0 <= i < |moves|
        ensures moves[i].y == s.prevY && moves[i].duration == MoveDuration
      {
        if i >= |hands.1| {
          assert moves[i] == rest.1[i - |hands.1|];
        }
      }
      forall k | 0 <= k < frames
        ensures ticks[k].read.Some?
      {
        if k > 0 {
          assert ticks[k] == ticks[1..][k - 1];
        }
      }
    } else {
      assert ticks[..0] == [];
    }
  }

  /** A terminate during the sleep after frame k ends the loop there: no later frame
      is handled. */
  lemma {:induction false} TerminateEndsLoop(s: TrackerState, ticks: seq<Tick>, k: nat)
    requires k < |ticks| && ticks[k].terminateDuringSleep
    ensures TrackingLoop(s, ticks).2 <= k + 1
    decreases k
  {
    if s.running && ticks != [] && !s.released && ticks[0].read.Some? && k > 0 {
      var hands := TrackHands(s.prevX, s.prevY, ticks[0].read.value);
      var s1 := s.(prevX := hands.0);
      var s2 := if ticks[0].terminateDuringSleep then s1.(running := false, released := true) else s1;
      assert ticks[1..][k - 1] == ticks[k];
      TerminateEndsLoop(s2, ticks[1..], k - 1);
    }
  }

  /** terminate_tracking releases the camera for good: a loop started again afterwards
      stops at its first read and moves nothing. */
  lemma RestartAfterTerminate(s: TrackerState, ticks: seq<Tick>)
    requires s.released
    ensures TrackingLoop(s.(running := true), ticks) == (s.(running := true), [], 0)
  {
  }

  /** The tracker's globals as an object: prev_x, prev_y, running and whether the
      camera has been released. */
  class Tracker {
    var prevX: real
    var prevY: real
    var running: bool
    var released: bool

    function State(): TrackerState
      reads this
    {
      TrackerState(prevX, prevY, running, released)
    }

    /** Module load: the pointer's current position, running, camera open. */
    constructor (pointerX: int, pointerY: int)
      ensures State() == TrackerState(pointerX as real, pointerY as real, true, false)
    {
      prevX := pointerX as real;
      prevY := pointerY as real;
      running := true;
      released := false;
    }

    /** start_tracking: sets running; the camera is not reopened. */
    method StartTracking()
      modifies this`running
      ensures State() == old(State()).(running := true)
    {
      running := true;
    }

    /** terminate_tracking: clears running and releases the camera. */
    method TerminateTracking()
      modifies this`running, this`released
      ensures State() == old(State()).(running := false, released := true)
    {
      running := false;
      released := true;
    }

    /** _handle_hand_tracking over the index tips of the detected hands. */
    method HandleHandTracking(tips: seq<Landmark>) returns (moves: seq<Move>)
      modifies this`prevX
      ensures prevX == TrackHands(old(prevX), prevY, tips).0
      ensures moves == TrackHands(old(prevX), prevY, tips).1
    {
      moves := [];
      var i := 0;
      assert tips[0..] == tips;
      while i < |tips|
        invariant 0 <= i <= |tips|
        invariant TrackHands(old(prevX), prevY, tips).0 == TrackHands(prevX, prevY, tips[i..]).0
        invariant TrackHands(old(prevX), prevY, tips).1 == moves + TrackHands(prevX, prevY, tips[i..]).1
      {
        var cx := TargetX(tips[i]);
        var newX := prevX + (cx as real - prevX) * Alpha;
        SuffixStep(tips, i);
        assert newX == Smooth(prevX, cx as real);
        ghost var rest := TrackHands(newX, prevY, tips[i + 1..]).1;
        ConcatAssoc(moves, [MoveTo(newX, prevY, MoveDuration)], rest);
        prevX := newX;
        moves := moves + [MoveTo(newX, prevY, MoveDuration)];
        i := i + 1;
      }
      assert tips[i..] == [];
    }

    /** _tracking_loop over the camera reads. A terminate may run only while the loop
        is suspended in its sleep. */
    method RunTrackingLoop(ticks: seq<Tick>) returns (moves: seq<Move>, frames: nat)
      modifies this`prevX, this`running, this`released
      ensures State() == TrackingLoop(old(State()), ticks).0
      ensures moves == TrackingLoop(old(State()), ticks).1
      ensures frames == TrackingLoop(old(State()), ticks).2
    {
      moves := [];
      frames := 0;
      assert ticks[0..] == ticks;
      while running
        invariant frames <= |ticks|
        invariant prevY == old(prevY)
        invariant TrackingLoop(old(State()), ticks).0 == TrackingLoop(State(), ticks[frames..]).0
        invariant TrackingLoop(old(State()), ticks).1 == moves + TrackingLoop(State(), ticks[frames..]).1
        invariant TrackingLoop(old(State()), ticks).2 == frames + TrackingLoop(State(), ticks[frames..]).2
        decreases |ticks| - frames
      {
        if frames == |ticks| {
          assert ticks[frames..] == [];
          break;
        }
        var read := if released then None else ticks[frames].read;
        if read.None? {
          break;
        }
        ghost var before := State();
        var handMoves := HandleHandTracking(read.value);
        if ticks[frames].terminateDuringSleep {
          TerminateTracking();
        }
        TrackingLoopStep(before, ticks[frames..], State());
        SuffixStep(ticks, frames);
        ghost var rest := TrackingLoop(State(), ticks[frames + 1..]).1;
        ConcatAssoc(moves, handMoves, rest);
        moves := moves + handMoves;
        frames := frames + 1;
      }
    }
  }
}
