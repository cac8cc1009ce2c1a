/** The hand-gesture controller: a cursor smoothed toward the index fingertip and an
    ordered cascade of fingertip-versus-palm tests that fires at most one action per
    detected hand, the discrete ones behind one shared debounce timestamp. */
module HandControl {
  import opened Common

  /** Landmarks 8, 12, 16, 20, 4 and 0 of one detected hand. */
  datatype HandPose = HandPose(index: Landmark, middle: Landmark, ring: Landmark,
                               pinky: Landmark, thumb: Landmark, palm: Landmark)

  /** What one hand in one frame is classified as. */
  datatype Gesture = BrightnessUp | BrightnessDown | MoveCursor | PageSwipe
                   | Screenshot | DoubleClick | NoGesture

  /** The effect handed to the operating system (pyautogui). */
  datatype Action = PressHotkey(keys: seq<string>)
                  | MovePointer(x: real, y: real, duration: real)
                  | SaveScreenshot(stamp: int)
                  | DoubleClickPointer

  /** One action together with the gesture and the clock reading that produced it. */
  datatype Event = Event(time: real, gesture: Gesture, action: Action)

  /** One detected hand and the clock reading taken for it. */
  datatype HandInput = HandInput(pose: HandPose, now: real)

  /** The controller's loop-carried variables: smoothed cursor and last discrete action time. */
  datatype HandState = HandState(prevX: real, prevY: real, lastActionTime: real)

  const DebounceSeconds: real := 0.5
  const PinchGap: real := 0.02
  const MoveDuration: real := 0.05

  /** A fingertip is "above" the palm base when its image y is smaller. */
  predicate Above(f: Landmark, palm: Landmark) { f.y < palm.y }
  predicate Below(f: Landmark, palm: Landmark) { f.y > palm.y }

  predicate AllAbove(h: HandPose)
  {
    Above(h.index, h.palm) && Above(h.middle, h.palm) && Above(h.ring, h.palm) && Above(h.pinky, h.palm)
  }

  predicate AllBelow(h: HandPose)
  {
    Below(h.index, h.palm) && Below(h.middle, h.palm) && Below(h.ring, h.palm) && Below(h.pinky, h.palm)
  }

  predicate TwoUp(h: HandPose) { Above(h.index, h.palm) && Above(h.middle, h.palm) }

  predicate SwipePose(h: HandPose) { TwoUp(h) && Below(h.ring, h.palm) }

  predicate ScreenshotPose(h: HandPose)
  {
    Above(h.middle, h.palm) && Above(h.ring, h.palm) && Above(h.pinky, h.palm) && Below(h.index, h.palm)
  }

  predicate Pinched(h: HandPose) { Abs(h.index.y - h.middle.y) < PinchGap }

  /** The debounce gate: strictly more than half a second since the last discrete action. */
  predicate GateOpen(now: real, last: real) { now - last > DebounceSeconds }

  predicate IsDiscrete(g: Gesture)
  {
    g == BrightnessUp || g == BrightnessDown || g == PageSwipe || g == Screenshot || g == DoubleClick
  }

  /** The if/elif cascade, first match wins, tried in the order of the source. */
  function Classify(h: HandPose, open: bool): (g: Gesture)
    ensures g != PageSwipe
    ensures IsDiscrete(g) ==> open
    ensures g == BrightnessUp <==> open && AllAbove(h)
    ensures g == BrightnessDown <==> open && AllBelow(h)
    ensures g == MoveCursor <==> TwoUp(h) && !(open && AllAbove(h))
    ensures g == Screenshot <==> open && ScreenshotPose(h)
    ensures g == DoubleClick <==>
              open && Pinched(h) && !AllBelow(h) && !TwoUp(h) && !ScreenshotPose(h)
    ensures !open && AllAbove(h) ==> g == MoveCursor
    ensures !open && AllBelow(h) ==> g == NoGesture
  {
    if AllAbove(h) && open then BrightnessUp
    else if AllBelow(h) && open then BrightnessDown
    else if TwoUp(h) then MoveCursor
    else if SwipePose(h) && open then PageSwipe
    else if ScreenshotPose(h) && open then Screenshot
    else if Pinched(h) && open then DoubleClick
    else NoGesture
  }

  /** The page-swipe condition implies the earlier cursor-move condition. */
  lemma SwipeShadowedByCursor(h: HandPose, open: bool)
    requires SwipePose(h) && open
    ensures TwoUp(h) && Classify(h, open) != PageSwipe
  {
  }

  /** The OS effect of a gesture; the screenshot file is named after the clock's seconds. */
  function ActionFor(g: Gesture, x: real, y: real, now: real): (a: Option<Action>)
    ensures a.None? <==> g == NoGesture
    ensures g == MoveCursor ==> a == Some(MovePointer(x, y, MoveDuration))
    ensures IsDiscrete(g) ==> a.Some? && !a.value.MovePointer?
  {
    match g
    case BrightnessUp => Some(PressHotkey(["volumeup"]))
    case BrightnessDown => Some(PressHotkey(["volumedown"]))
    case MoveCursor => Some(MovePointer(x, y, MoveDuration))
    case PageSwipe => Some(PressHotkey(["ctrl", "right"]))
    case Screenshot => Some(SaveScreenshot(Trunc(now)))
    case DoubleClick => Some(DoubleClickPointer)
    case NoGesture => None
  }

  /** Index fingertip scaled to the screen, truncated like Python's int(). */
  function TargetX(h: HandPose, screenW: int): int { Trunc(h.index.x * screenW as real) }
  function TargetY(h: HandPose, screenH: int): int { Trunc(h.index.y * screenH as real) }

  /** Everything the loop body does for one detected hand. */
  function HandStep(s: HandState, inp: HandInput, screenW: int, screenH: int): (r: (HandState, seq<Event>))
    ensures |r.1| <= 1
    ensures r.0.prevX == Smooth(s.prevX, TargetX(inp.pose, screenW) as real)
    ensures r.0.prevY == Smooth(s.prevY, TargetY(inp.pose, screenH) as real)
    ensures r.1 == [] <==> Classify(inp.pose, GateOpen(inp.now, s.lastActionTime)) == NoGesture
    ensures forall e | e in r.1 :: e.time == inp.now &&
              e.gesture == Classify(inp.pose, GateOpen(inp.now, s.lastActionTime))
    ensures r.1 != [] && IsDiscrete(r.1[0].gesture) ==>
              GateOpen(inp.now, s.lastActionTime) && r.0.lastActionTime == inp.now
    ensures (r.1 == [] || !IsDiscrete(r.1[0].gesture)) ==> r.0.lastActionTime == s.lastActionTime
    ensures r.1 != [] && r.1[0].gesture == MoveCursor ==>
              r.1[0].action == MovePointer(r.0.prevX, r.0.prevY, MoveDuration)
  {
    var newX := Smooth(s.prevX, TargetX(inp.pose, screenW) as real);
    var newY := Smooth(s.prevY, TargetY(inp.pose, screenH) as real);
    var g := Classify(inp.pose, GateOpen(inp.now, s.lastActionTime));
    var last := if IsDiscrete(g) then inp.now else s.lastActionTime;
    var events := match ActionFor(g, newX, newY, inp.now)
                  case None => []
                  case Some(a) => [Event(inp.now, g, a)];
    (HandState(newX, newY, last), events)
  }

  /** The events produced by a run of hands, in order. */
  function Trace(s: HandState, ins: seq<HandInput>, screenW: int, screenH: int): seq<Event>
    decreases |ins|
  {
    if ins == [] then []
    else
      var (s', ev) := HandStep(s, ins[0], screenW, screenH);
      ev + Trace(s', ins[1..], screenW, screenH)
  }

  /** The state after a run of hands. */
  function Final(s: HandState, ins: seq<HandInput>, screenW: int, screenH: int): HandState
    decreases |ins|
  {
    if ins == [] then s
    else Final(HandStep(s, ins[0], screenW, screenH).0, ins[1..], screenW, screenH)
  }

  /** Running two batches of hands one after the other is running their concatenation. */
  lemma {:induction false} TraceAppend(s: HandState, a: seq<HandInput>, b: seq<HandInput>, screenW: int, screenH: int)
    ensures Trace(s, a + b, screenW, screenH) ==
            Trace(s, a, screenW, screenH) + Trace(Final(s, a, screenW, screenH), b, screenW, screenH)
    ensures Final(s, a + b, screenW, screenH) == Final(Final(s, a, screenW, screenH), b, screenW, screenH)
    decreases |a|
  {
    if a == [] {
      assert a + b == b;
    } else {
      ConcatHead(a, b);
      TraceAppend(HandStep(s, a[0], screenW, screenH).0, a[1..], b, screenW, screenH);
    }
  }

  /** Every discrete action of a run fires more than half a second after the
      last discrete action recorded in the state the run started from. */
  lemma {:induction false} DiscreteAfterGate(s: HandState, ins: seq<HandInput>, screenW: int, screenH: int)
    ensures forall k | 0 <= k < |Trace(s, ins, screenW, screenH)| ::
              IsDiscrete(Trace(s, ins, screenW, screenH)[k].gesture) ==>
                Trace(s, ins, screenW, screenH)[k].time - s.lastActionTime > DebounceSeconds
    decreases |ins|
  {
    if ins != [] {
      var (s', ev) := HandStep(s, ins[0], screenW, screenH);
      var rest := Trace(s', ins[1..], screenW, screenH);
      DiscreteAfterGate(s', ins[1..], screenW, screenH);
      assert s'.lastActionTime >= s.lastActionTime;
      assert Trace(s, ins, screenW, screenH) == ev + rest;
      forall k | 0 <= k < |ev + rest| && IsDiscrete((ev + rest)[k].gesture)
        ensures (ev + rest)[k].time - s.lastActionTime > DebounceSeconds
      {
        if k >= |ev| {
          assert (ev + rest)[k] == rest[k - |ev|];
        }
      }
    }
  }

  /** Debounce exclusivity: any two discrete actions of a run, whatever their kinds,
      are more than half a second apart. Clock readings need not be monotone. */
  lemma {:induction false} DebounceSpacing(s: HandState, ins: seq<HandInput>, screenW: int, screenH: int)
    ensures forall i, j | 0 <= i < j < |Trace(s, ins, screenW, screenH)| ::
              IsDiscrete(Trace(s, ins, screenW, screenH)[i].gesture) &&
              IsDiscrete(Trace(s, ins, screenW, screenH)[j].gesture) ==>
                Trace(s, ins, screenW, screenH)[j].time - Trace(s, ins, screenW, screenH)[i].time > DebounceSeconds
    decreases |ins|
  {
    if ins != [] {
      var (s', ev) := HandStep(s, ins[0], screenW, screenH);
      var rest := Trace(s', ins[1..], screenW, screenH);
      var tr := ev + rest;
      assert Trace(s, ins, screenW, screenH) == tr;
      DebounceSpacing(s', ins[1..], screenW, screenH);
      DiscreteAfterGate(s', ins[1..], screenW, screenH);
      forall i, j | 0 <= i < j < |tr| && IsDiscrete(tr[i].gesture) && IsDiscrete(tr[j].gesture)
        ensures tr[j].time - tr[i].time > DebounceSeconds
      {
        assert tr[j] == rest[j - |ev|];
        if i >= |ev| {
          assert tr[i] == rest[i - |ev|];
        } else {
          assert s'.lastActionTime == tr[i].time;
        }
      }
    }
  }

  /** A captured frame: the hands detected in it and whether 'q' was pressed. */
  datatype HandFrame = HandFrame(hands: seq<HandInput>, quitKey: bool)

  /** The hands the loop processes: frames up to the first failed read, stopping
      after the frame in which 'q' is pressed. */
  function Consumed(captures: seq<Option<HandFrame>>): seq<HandInput>
    decreases |captures|
  {
    if captures == [] || captures[0].None? then []
    else if captures[0].value.quitKey then captures[0].value.hands
    else captures[0].value.hands + Consumed(captures[1..])
  }

  /** A failed read ends the loop: nothing after it is ever consumed. */
  lemma {:induction false} ConsumedStopsAtFailure(captures: seq<Option<HandFrame>>, k: nat)
    requires k < |captures| && captures[k].None?
    ensures Consumed(captures) == Consumed(captures[..k])
    decreases k
  {
    if k > 0 && captures[0].Some? && !captures[0].value.quitKey {
      assert captures[1..][k - 1] == captures[k];
      ConsumedStopsAtFailure(captures[1..], k - 1);
      assert captures[..k][1..] == captures[1..][..k - 1];
    }
  }

  /** The frame loop, frame by frame: final state and events, up to the first failed
      read or through the frame in which 'q' is pressed. */
  function RunFrames(s: HandState, captures: seq<Option<HandFrame>>, screenW: int, screenH: int): (r: (HandState, seq<Event>))
    decreases |captures|
  {
    if captures == [] || captures[0].None? then (s, [])
    else
      var f := captures[0].value;
      var next := Final(s, f.hands, screenW, screenH);
      var ev := Trace(s, f.hands, screenW, screenH);
      if f.quitKey then (next, ev)
      else
        var rest := RunFrames(next, captures[1..], screenW, screenH);
        (rest.0, ev + rest.1)
  }

  /** One read frame of the run, unfolded. */
  lemma RunFramesStep(s: HandState, captures: seq<Option<HandFrame>>, screenW: int, screenH: int)
    requires captures != [] && captures[0].Some?
    ensures var hands := captures[0].value.hands;
            captures[0].value.quitKey ==>
              && RunFrames(s, captures, screenW, screenH).0 == Final(s, hands, screenW, screenH)
              && RunFrames(s, captures, screenW, screenH).1 == Trace(s, hands, screenW, screenH)
    ensures var hands := captures[0].value.hands;
            var rest := RunFrames(Final(s, hands, screenW, screenH), captures[1..], screenW, screenH);
            !captures[0].value.quitKey ==>
              && RunFrames(s, captures, screenW, screenH).0 == rest.0
              && RunFrames(s, captures, screenW, screenH).1 == Trace(s, hands, screenW, screenH) + rest.1
  {
  }

  /** Running frame by frame is running the hands of the consumed frames as one batch. */
  lemma {:induction false} RunFramesConsumed(s: HandState, captures: seq<Option<HandFrame>>, screenW: int, screenH: int)
    ensures RunFrames(s, captures, screenW, screenH).0 == Final(s, Consumed(captures), screenW, screenH)
    ensures RunFrames(s, captures, screenW, screenH).1 == Trace(s, Consumed(captures), screenW, screenH)
    decreases |captures|
  {
    if captures != [] && captures[0].Some? && !captures[0].value.quitKey {
      var f := captures[0].value;
      RunFramesConsumed(Final(s, f.hands, screenW, screenH), captures[1..], screenW, screenH);
      TraceAppend(s, f.hands, Consumed(captures[1..]), screenW, screenH);
    }
  }

  class HandController {
    const screenW: int
    const screenH: int
    var prevX: real
    var prevY: real
    var lastActionTime: real

    function State(): HandState
      reads this
    {
      HandState(prevX, prevY, lastActionTime)
    }

    /** Start-up: the cursor starts at the current pointer position and the gate
        timestamp at the start time. */
    constructor (screenW: int, screenH: int, pointerX: int, pointerY: int, startTime: real)
      ensures this.screenW == screenW && this.screenH == screenH
      ensures State() == HandState(pointerX as real, pointerY as real, startTime)
    {
      this.screenW := screenW;
      this.screenH := screenH;
      prevX := pointerX as real;
      prevY := pointerY as real;
      lastActionTime := startTime;
    }

    /** The body of the per-hand loop: smooth, then try the cascade. */
    method ProcessHand(inp: HandInput) returns (ev: seq<Event>)
      modifies this
      ensures (State(), ev) == HandStep(old(State()), inp, screenW, screenH)
    {
      var h := inp.pose;
      var cx, cy := TargetX(h, screenW), TargetY(h, screenH);
      var newX := prevX + (cx as real - prevX) * Alpha;
      var newY := prevY + (cy as real - prevY) * Alpha;
      prevX, prevY := newX, newY;
      var currentTime := inp.now;
      var open := currentTime - lastActionTime > DebounceSeconds;
      ev := [];
      if AllAbove(h) && open {
        ev := [Event(currentTime, BrightnessUp, PressHotkey(["volumeup"]))];
        lastActionTime := currentTime;
      } else if AllBelow(h) && open {
        ev := [Event(currentTime, BrightnessDown, PressHotkey(["volumedown"]))];
        lastActionTime := currentTime;
      } else if TwoUp(h) {
        ev := [Event(currentTime, MoveCursor, MovePointer(newX, newY, MoveDuration))];
      } else if SwipePose(h) && open {
        // The swipe test repeats the cursor test above plus more conditions, so
        // control never arrives here; the source would press ctrl+right.
        assert false;
      } else if ScreenshotPose(h) && open {
        ev := [Event(currentTime, Screenshot, SaveScreenshot(Trunc(currentTime)))];
        lastActionTime := currentTime;
      } else if Pinched(h) && open {
        ev := [Event(currentTime, DoubleClick, DoubleClickPointer)];
        lastActionTime := currentTime;
      }
    }

    /** The `for hand_landmarks in ...` loop over the hands of one frame. */
    method ProcessFrame(hands: seq<HandInput>) returns (evs: seq<Event>)
      modifies this
      ensures evs == Trace(old(State()), hands, screenW, screenH)
      ensures State() == Final(old(State()), hands, screenW, screenH)
    {
      evs := [];
      var i := 0;
      while i < |hands|
        invariant 0 <= i <= |hands|
        invariant Trace(old(State()), hands, screenW, screenH) == evs + Trace(State(), hands[i..], screenW, screenH)
        invariant Final(old(State()), hands, screenW, screenH) == Final(State(), hands[i..], screenW, screenH)
      {
        SuffixStep(hands, i);
        var ev := ProcessHand(hands[i]);
        evs := evs + ev;
        i := i + 1;
      }
    }

    /** `while cap.isOpened()`: read, process the frame's hands, stop on a failed
        read or on 'q'. */
    method Run(captures: seq<Option<HandFrame>>) returns (evs: seq<Event>)
      modifies this
      ensures evs == Trace(old(State()), Consumed(captures), screenW, screenH)
      ensures State() == Final(old(State()), Consumed(captures), screenW, screenH)
    {
      ghost var start := State();
      RunFramesConsumed(start, captures, screenW, screenH);
      evs := [];
      var i := 0;
      while i < |captures|
        invariant 0 <= i <= |captures|
        invariant RunFrames(start, captures, screenW, screenH).1 ==
                  evs + RunFrames(State(), captures[i..], screenW, screenH).1
        invariant RunFrames(start, captures, screenW, screenH).0 ==
                  RunFrames(State(), captures[i..], screenW, screenH).0
      {
        if captures[i].None? {
          break;
        }
        var frame := captures[i].value;
        ghost var before := State();
        SuffixStep(captures, i);
        RunFramesStep(before, captures[i..], screenW, screenH);
        var ev := ProcessFrame(frame.hands);
        if frame.quitKey {
          evs := evs + ev;
          break;
        }
        ConcatAssoc(evs, ev, RunFrames(State(), captures[i + 1..], screenW, screenH).1);
        evs := evs + ev;
        i := i + 1;
      }
    }
  }
}
