/** The eye-controlled mouse: each captured frame moves the pointer to the iris
    landmark scaled to the screen, clicks on a blink, and yields one stream chunk. */
module EyeMouse {
  import opened Common

  /** The landmarks the frame step reads from the first detected face: iris point 475
      and the lower and upper eyelid points 145 and 159. */
  datatype FaceMesh = FaceMesh(iris: Landmark, lowerLid: Landmark, upperLid: Landmark)

  /** One successful camera read: the frame's pixel size and the first face, if any. */
  datatype CameraFrame = CameraFrame(width: int, height: int, face: Option<FaceMesh>)

  /** What the loop does, in order: pointer moves, clicks, awaited sleeps and
      yielded multipart chunks. */
  datatype Effect = PointerMove(x: real, y: real) | Click | Pause(seconds: real) | Chunk

  const BlinkGap: real := 0.007
  const ClickPause: real := 1.0
  const YieldPause: real := 0.01

  predicate FrameOk(f: CameraFrame)
  {
    f.width > 0 && f.height > 0
  }

  predicate CapturesOk(captures: seq<Option<CameraFrame>>)
  {
    forall k | 0 <= k < |captures| :: captures[k].Some? ==> FrameOk(captures[k].value)
  }

  /** A blink: the lower lid is less than 0.007 below the upper one (strict). */
  predicate Blink(m: FaceMesh)
  {
    m.lowerLid.y - m.upperLid.y < BlinkGap
  }

  /** One axis of the pointer mapping: the landmark's pixel position in a frame of
      `size` pixels, truncated by int(), scaled by screen size over frame size. */
  function ScreenCoord(screen: int, size: int, u: real): real
    requires size > 0
  {
    (screen as real / size as real) * Trunc(u * size as real) as real
  }

  /** The screen point for the iris landmark. */
  function PointerTarget(screenW: int, screenH: int, f: CameraFrame): (p: (real, real))
    requires FrameOk(f) && f.face.Some?
  {
    (ScreenCoord(screenW, f.width, f.face.value.iris.x), ScreenCoord(screenH, f.height, f.face.value.iris.y))
  }

  /** An iris at a normalised coordinate in [0, 1] lands inside the screen. */
  lemma PointerOnScreen(screenW: int, screenH: int, f: CameraFrame)
    requires FrameOk(f) && f.face.Some?
    requires screenW >= 0 && screenH >= 0
    requires 0.0 <= f.face.value.iris.x <= 1.0 && 0.0 <= f.face.value.iris.y <= 1.0
    ensures 0.0 <= PointerTarget(screenW, screenH, f).0 <= screenW as real
    ensures 0.0 <= PointerTarget(screenW, screenH, f).1 <= screenH as real
  {
    AxisOnScreen(screenW, f.width, f.face.value.iris.x);
    AxisOnScreen(screenH, f.height, f.face.value.iris.y);
  }

  /** One axis of the mapping: a coordinate u in [0, 1] on a frame of `size` pixels
      lands in [0, screen]. */
  lemma AxisOnScreen(screen: int, size: int, u: real)
    requires screen >= 0 && size > 0 && 0.0 <= u <= 1.0
    ensures 0.0 <= ScreenCoord(screen, size, u) <= screen as real
  {
    UnitScale(u, size as real);
    TruncBetween(u * size as real, size);
    ScaleBound(screen as real, size as real, Trunc(u * size as real) as real);
  }

  /** int() of a value in [0, n] is in [0, n]. */
  lemma TruncBetween(r: real, n: int)
    requires 0.0 <= r <= n as real
    ensures 0 <= Trunc(r) <= n
  {
    TruncMonotone(r, n as real);
    TruncOfInt(n);
  }

  lemma UnitScale(u: real, w: real)
    requires w > 0.0 && 0.0 <= u <= 1.0
    ensures 0.0 <= u * w <= w
  {
    assert u * w <= 1.0 * w;
  }

  lemma ScaleBound(s: real, w: real, x: real)
    requires s >= 0.0 && w > 0.0 && 0.0 <= x <= w
    ensures 0.0 <= (s / w) * x <= s
  {
    assert (s / w) * x <= (s / w) * w;
  }

  /** The effects of one successfully read frame. */
  function FrameEffects(screenW: int, screenH: int, f: CameraFrame): seq<Effect>
    requires FrameOk(f)
  {
    var tail := [Chunk, Pause(YieldPause)];
    if f.face.None? then tail
    else
      var p := PointerTarget(screenW, screenH, f);
      [PointerMove(p.0, p.1)] + (if Blink(f.face.value) then [Click, Pause(ClickPause)] else []) + tail
  }

  /** The whole stream: frames are handled until the first failed read. */
  function Stream(screenW: int, screenH: int, captures: seq<Option<CameraFrame>>): seq<Effect>
    requires CapturesOk(captures)
    decreases |captures|
  {
    if captures == [] || captures[0].None? then []
    else FrameEffects(screenW, screenH, captures[0].value) + Stream(screenW, screenH, captures[1..])
  }

  /** The frames read successfully before the first failure. */
  function Frames(captures: seq<Option<CameraFrame>>): (fs: seq<CameraFrame>)
    ensures |fs| <= |captures|
    ensures forall k | 0 <= k < |fs| :: captures[k] == Some(fs[k])
    ensures |fs| < |captures| ==> captures[|fs|].None?
    decreases |captures|
  {
    if captures == [] || captures[0].None? then []
    else [captures[0].value] + Frames(captures[1..])
  }

  lemma StreamAt(screenW: int, screenH: int, captures: seq<Option<CameraFrame>>, i: nat)
    requires CapturesOk(captures) && i < |captures|
    ensures CapturesOk(captures[i..]) && CapturesOk(captures[i + 1..])
    ensures captures[i].None? ==> Stream(screenW, screenH, captures[i..]) == []
    ensures captures[i].Some? ==>
              && FrameOk(captures[i].value)
              && Stream(screenW, screenH, captures[i..]) ==
                 FrameEffects(screenW, screenH, captures[i].value) + Stream(screenW, screenH, captures[i + 1..])
  {
    SuffixStep(captures, i);
  }

  /** The per-frame decision: move to the iris point, click on a blink and pause one
      second, then yield the chunk and pause 10 ms. This is the statement sequence the
      generator runs; `FrameEffects` is its specification, which the stream lemmas use
      because a lemma cannot call a method. */
  method HandleFrame(screenW: int, screenH: int, frame: CameraFrame) returns (effects: seq<Effect>)
    requires FrameOk(frame)
    ensures effects == FrameEffects(screenW, screenH, frame)
  {
    effects := [];
    if frame.face.Some? {
      var mesh := frame.face.value;
      var screenX := ScreenCoord(screenW, frame.width, mesh.iris.x);
      var screenY := ScreenCoord(screenH, frame.height, mesh.iris.y);
      effects := effects + [PointerMove(screenX, screenY)];
      if mesh.lowerLid.y - mesh.upperLid.y < BlinkGap {
        effects := effects + [Click, Pause(ClickPause)];
      }
    }
    effects := effects + [Chunk, Pause(YieldPause)];
  }

  /** The generator loop, `while True` over the camera reads, recording its effects. */
  method GenerateFrames(screenW: int, screenH: int, captures: seq<Option<CameraFrame>>)
    returns (effects: seq<Effect>)
    requires CapturesOk(captures)
    ensures effects == Stream(screenW, screenH, captures)
  {
    effects := [];
    var i := 0;
    while i < |captures|
      invariant 0 <= i <= |captures|
      invariant effects + Stream(screenW, screenH, captures[i..]) == Stream(screenW, screenH, captures)
    {
      StreamAt(screenW, screenH, captures, i);
      var read := captures[i];
      if read.None? {
        break;
      }
      var frameEffects := HandleFrame(screenW, screenH, read.value);
      ghost var rest := Stream(screenW, screenH, captures[i + 1..]);
      ConcatAssoc(effects, frameEffects, rest);
      effects := effects + frameEffects;
      i := i + 1;
    }
  }

  /** The number of chunks among the effects: the multiplicity of `Chunk`. */
  function CountChunks(es: seq<Effect>): (n: nat)
    ensures n == multiset(es)[Chunk]
  {
    if es == [] then 0
    else
      assert es == [es[0]] + es[1..];
      (if es[0] == Chunk then 1 else 0) + CountChunks(es[1..])
  }

  lemma {:induction false} CountChunksAppend(a: seq<Effect>, b: seq<Effect>)
    ensures CountChunks(a + b) == CountChunks(a) + CountChunks(b)
    decreases |a|
  {
    if a != [] {
      ConcatHead(a, b);
      CountChunksAppend(a[1..], b);
    } else {
      assert a + b == b;
    }
  }

  lemma OneChunkPerFrame(screenW: int, screenH: int, f: CameraFrame)
    requires FrameOk(f)
    ensures CountChunks(FrameEffects(screenW, screenH, f)) == 1
  {
    var tail := [Chunk, Pause(YieldPause)];
    if f.face.Some? {
      var p := PointerTarget(screenW, screenH, f);
      var mid: seq<Effect> := if Blink(f.face.value) then [Click, Pause(ClickPause)] else [];
      assert multiset([PointerMove(p.0, p.1)] + mid + tail)[Chunk] == 1;
    } else {
      assert multiset(tail)[Chunk] == 1;
    }
  }

  /** Exactly one chunk is yielded per successfully read frame. */
  lemma {:induction false} ChunkPerFrame(screenW: int, screenH: int, captures: seq<Option<CameraFrame>>)
    requires CapturesOk(captures)
    ensures CountChunks(Stream(screenW, screenH, captures)) == |Frames(captures)|
    decreases |captures|
  {
    if captures != [] && captures[0].Some? {
      OneChunkPerFrame(screenW, screenH, captures[0].value);
      ChunkPerFrame(screenW, screenH, captures[1..]);
      CountChunksAppend(FrameEffects(screenW, screenH, captures[0].value), Stream(screenW, screenH, captures[1..]));
    }
  }

  /** Nothing after the first failed read is ever looked at. */
  lemma {:induction false} StopsAtFailure(screenW: int, screenH: int, captures: seq<Option<CameraFrame>>, k: nat)
    requires CapturesOk(captures)
    requires k < |captures| && captures[k].None?
    ensures Stream(screenW, screenH, captures) == Stream(screenW, screenH, captures[..k])
    decreases k
  {
    if k > 0 && captures[0].Some? {
      assert captures[..k][1..] == captures[1..][..k - 1];
      assert captures[..k][0] == captures[0];
      StopsAtFailure(screenW, screenH, captures[1..], k - 1);
    }
  }

  /** A frame with no face neither moves the pointer nor clicks. */
  lemma NoFaceNoAction(screenW: int, screenH: int, f: CameraFrame)
    requires FrameOk(f) && f.face.None?
    ensures FrameEffects(screenW, screenH, f) == [Chunk, Pause(YieldPause)]
  {
  }

  /** With a face: exactly one pointer move, first, to the scaled iris point; a click
      iff the eyelids are closer than 0.007, right after the move; at most one click. */
  lemma FaceFrame(screenW: int, screenH: int, f: CameraFrame)
    requires FrameOk(f) && f.face.Some?
    ensures var es := FrameEffects(screenW, screenH, f);
            var p := PointerTarget(screenW, screenH, f);
            && es[0] == PointerMove(p.0, p.1)
            && (forall i | 1 <= i < |es| :: !es[i].PointerMove?)
            && (Click in es <==> Blink(f.face.value))
            && (Click in es ==> es[1] == Click)
            && (forall i, j | 0 <= i < j < |es| :: es[i] == Click ==> es[j] != Click)
  {
    var es := FrameEffects(screenW, screenH, f);
    if Blink(f.face.value) {
      assert es[1] == Click;
    } else {
      assert |es| == 3;
    }
  }

  /** A click is immediately followed by the one-second pause. */
  predicate ClickPaused(es: seq<Effect>)
  {
    forall i | 0 <= i < |es| :: es[i] == Click ==> i + 1 < |es| && es[i + 1] == Pause(ClickPause)
  }

  lemma ClickPausedAppend(a: seq<Effect>, b: seq<Effect>)
    requires ClickPaused(a) && ClickPaused(b)
    ensures ClickPaused(a + b)
  {
    forall i | 0 <= i < |a + b| && (a + b)[i] == Click
      ensures i + 1 < |a + b| && (a + b)[i + 1] == Pause(ClickPause)
    {
      if i < |a| {
        assert a[i] == Click;
      } else {
        assert b[i - |a|] == Click;
      }
    }
  }

  lemma {:induction false} StreamClickPaused(screenW: int, screenH: int, captures: seq<Option<CameraFrame>>)
    requires CapturesOk(captures)
    ensures ClickPaused(Stream(screenW, screenH, captures))
    decreases |captures|
  {
    if captures != [] && captures[0].Some? {
      var es := FrameEffects(screenW, screenH, captures[0].value);
      assert ClickPaused(es) by {
        if captures[0].value.face.Some? {
          FaceFrame(screenW, screenH, captures[0].value);
        }
      }
      StreamClickPaused(screenW, screenH, captures[1..]);
      ClickPausedAppend(es, Stream(screenW, screenH, captures[1..]));
    }
  }

  function Duration(e: Effect): real
  {
    if e.Pause? then e.seconds else 0.0
  }

  /** Time spent asleep over a run of effects: the clock, if only the sleeps advance it. */
  function Elapsed(es: seq<Effect>): real
  {
    if es == [] then 0.0 else Elapsed(es[..|es| - 1]) + Duration(es[|es| - 1])
  }

  predicate PausesNonNegative(es: seq<Effect>)
  {
    forall i | 0 <= i < |es| :: Duration(es[i]) >= 0.0
  }

  lemma {:induction false} ElapsedGrows(es: seq<Effect>, i: nat, j: nat)
    requires PausesNonNegative(es)
    requires i <= j <= |es|
    ensures Elapsed(es[..i]) <= Elapsed(es[..j])
    decreases j - i
  {
    if i < j {
      ElapsedGrows(es, i, j - 1);
      assert es[..j][..j - 1] == es[..j - 1];
    }
  }

  lemma {:induction false} StreamPauses(screenW: int, screenH: int, captures: seq<Option<CameraFrame>>)
    requires CapturesOk(captures)
    ensures PausesNonNegative(Stream(screenW, screenH, captures))
    decreases |captures|
  {
    if captures != [] && captures[0].Some? {
      StreamPauses(screenW, screenH, captures[1..]);
    }
  }

  /** Consecutive clicks are at least one second apart on a clock advanced only by
      the awaited sleeps. */
  lemma ClickSpacing(screenW: int, screenH: int, captures: seq<Option<CameraFrame>>, i: nat, j: nat)
    requires CapturesOk(captures)
    requires i < j < |Stream(screenW, screenH, captures)|
    requires Stream(screenW, screenH, captures)[i] == Click
    requires Stream(screenW, screenH, captures)[j] == Click
    ensures Elapsed(Stream(screenW, screenH, captures)[..j]) - Elapsed(Stream(screenW, screenH, captures)[..i]) >= ClickPause
  {
    var es := Stream(screenW, screenH, captures);
    StreamClickPaused(screenW, screenH, captures);
    StreamPauses(screenW, screenH, captures);
    assert es[i + 1] == Pause(ClickPause);
    assert j >= i + 2;
    assert es[..i + 1][..i] == es[..i];
    assert es[..i + 2][..i + 1] == es[..i + 1];
    assert Elapsed(es[..i + 2]) == Elapsed(es[..i]) + ClickPause;
    ElapsedGrows(es, i + 2, j);
  }

  /** A frame whose face has the given eyelid gap (lower lid y minus upper lid y). */
  function GapFrame(gap: real): (f: CameraFrame)
    ensures FrameOk(f) && f.face.Some? && f.face.value.lowerLid.y - f.face.value.upperLid.y == gap
  {
    CameraFrame(640, 480, Some(FaceMesh(Landmark(0.5, 0.5), Landmark(0.5, 0.5 + gap), Landmark(0.5, 0.5))))
  }

  /** A frame whose face has the eyelids closer than 0.007. */
  predicate Blinking(f: CameraFrame)
  {
    f.face.Some? && Blink(f.face.value)
  }

  /** How many of the frames blink. */
  function BlinkCount(fs: seq<CameraFrame>): (n: nat)
    ensures n <= |fs|
  {
    if fs == [] then 0 else (if Blinking(fs[0]) then 1 else 0) + BlinkCount(fs[1..])
  }

  /** A frame clicks once if it blinks and not at all otherwise. */
  lemma FrameClicks(screenW: int, screenH: int, f: CameraFrame)
    requires FrameOk(f)
    ensures multiset(FrameEffects(screenW, screenH, f))[Click] == if Blinking(f) then 1 else 0
  {
    var tail := [Chunk, Pause(YieldPause)];
    assert multiset(tail)[Click] == 0;
    if f.face.Some? {
      var p := PointerTarget(screenW, screenH, f);
      var mid: seq<Effect> := if Blink(f.face.value) then [Click, Pause(ClickPause)] else [];
      assert multiset(mid)[Click] == if Blink(f.face.value) then 1 else 0;
      assert multiset([PointerMove(p.0, p.1)])[Click] == 0;
      assert FrameEffects(screenW, screenH, f) == [PointerMove(p.0, p.1)] + mid + tail;
    }
  }

  /** Clicks are counted by blinks: the loop clicks exactly once per handled frame
      that blinks, with no debounce between consecutive blinking frames. */
  lemma {:induction false} ClicksAreBlinks(screenW: int, screenH: int, captures: seq<Option<CameraFrame>>)
    requires CapturesOk(captures)
    ensures multiset(Stream(screenW, screenH, captures))[Click] == BlinkCount(Frames(captures))
    decreases |captures|
  {
    if captures != [] && captures[0].Some? {
      StreamAt(screenW, screenH, captures, 0);
      FrameClicks(screenW, screenH, captures[0].value);
      ClicksAreBlinks(screenW, screenH, captures[1..]);
      ConcatHead([captures[0].value], Frames(captures[1..]));
    }
  }

  /** Five frames open, open, blinking, blinking, open (any open frame `o` and any
      blinking frame `x`) give two clicks, on the third frame and again on the fourth:
      the loop has no debounce window, only the one-second sleep after each click. */
  lemma GapSequenceClicksTwice(screenW: int, screenH: int, o: CameraFrame, x: CameraFrame, captures: seq<Option<CameraFrame>>)
    requires FrameOk(o) && FrameOk(x) && !Blinking(o) && Blinking(x)
    requires |captures| == 5
    requires captures[0] == Some(o) && captures[1] == Some(o) && captures[2] == Some(x) && captures[3] == Some(x) && captures[4] == Some(o)
    ensures CapturesOk(captures)
    ensures multiset(Stream(screenW, screenH, captures))[Click] == 2
  {
    assert forall k | 0 <= k < |captures| :: captures[k] == Some(o) || captures[k] == Some(x);
    ClicksAreBlinks(screenW, screenH, captures);
    FramesAllRead(captures);
    OpenOpenShutShutOpen(o, x, Frames(captures));
  }

  /** The scenario on concrete frames: eyelid gaps 0.01, 0.01, 0.005, 0.005, 0.01 read
      in turn give exactly two clicks, one per frame whose gap is below 0.007. */
  lemma GapFramesClickTwice(screenW: int, screenH: int, captures: seq<Option<CameraFrame>>)
    requires |captures| == 5
    requires captures[0] == Some(GapFrame(0.01)) && captures[1] == Some(GapFrame(0.01))
    requires captures[2] == Some(GapFrame(0.005)) && captures[3] == Some(GapFrame(0.005))
    requires captures[4] == Some(GapFrame(0.01))
    ensures CapturesOk(captures)
    ensures multiset(Stream(screenW, screenH, captures))[Click] == 2
  {
    var o, x := GapFrame(0.01), GapFrame(0.005);
    assert !Blinking(o) && Blinking(x);
    GapSequenceClicksTwice(screenW, screenH, o, x, captures);
  }

  /** When every read succeeds, the handled frames are all of them. */
  lemma FramesAllRead(captures: seq<Option<CameraFrame>>)
    requires forall k | 0 <= k < |captures| :: captures[k].Some?
    ensures |Frames(captures)| == |captures|
    ensures forall k | 0 <= k < |captures| :: Frames(captures)[k] == captures[k].value
  {
  }

  /** Open, open, shut, shut, open: two blinking frames. */
  lemma OpenOpenShutShutOpen(o: CameraFrame, x: CameraFrame, fs: seq<CameraFrame>)
    requires !Blinking(o) && Blinking(x)
    requires |fs| == 5 && fs[0] == o && fs[1] == o && fs[2] == x && fs[3] == x && fs[4] == o
    ensures BlinkCount(fs) == 2
  {
    assert fs[4..][1..] == [];
    assert BlinkCount(fs[4..]) == 0;
    assert fs[3..][1..] == fs[4..];
    assert BlinkCount(fs[3..]) == 1;
    assert fs[2..][1..] == fs[3..];
    assert BlinkCount(fs[2..]) == 2;
    assert fs[1..][1..] == fs[2..];
    assert BlinkCount(fs[1..]) == 2;
  }
}
