/** The eye-tracking balloon game: a gaze point from two lower-eyelid landmarks,
    a pool of five rising balloons, popping on containment and respawning at the
    bottom once a balloon leaves the top. */
module EyeGame {
  import opened Common

  const Width: int := 800
  const Height: int := 600
  const Sensitivity: real := 1.5
  const BalloonW: int := 150
  const BalloonH: int := 170
  const SpawnY: int := 600
  const RiseStep: int := 2
  const TopLimit: int := -70
  const MinX: int := 100
  const MaxX: int := 700
  const PoolSize: nat := 5

  datatype Balloon = Balloon(x: int, y: int)

  /** Landmarks 145 (left lower eyelid) and 374 (right lower eyelid) of one face. */
  datatype EyePair = EyePair(left: Landmark, right: Landmark)

  /** The amplified offset of an eyelid midpoint from the image centre. */
  function GazeOffset(mid: real, size: int): real
  {
    (mid - 0.5) * (size as real * Sensitivity)
  }

  /** One gaze coordinate before clamping: the midpoint, offset from the centre,
      amplified by the sensitivity and shifted by half the canvas. */
  function RawGaze(a: real, b: real, size: int): int
  {
    Trunc(GazeOffset((a + b) / 2.0, size) + (size / 2) as real)
  }

  /** get_eye_position: the gaze point, clamped to the canvas. */
  function EyePosition(face: EyePair, width: int, height: int): (p: (int, int))
    requires width >= 0 && height >= 0
    ensures 0 <= p.0 <= width && 0 <= p.1 <= height
    ensures 0 <= RawGaze(face.left.x, face.right.x, width) <= width ==>
              p.0 == RawGaze(face.left.x, face.right.x, width)
    ensures 0 <= RawGaze(face.left.y, face.right.y, height) <= height ==>
              p.1 == RawGaze(face.left.y, face.right.y, height)
  {
    (Clamp(RawGaze(face.left.x, face.right.x, width), 0, width),
     Clamp(RawGaze(face.left.y, face.right.y, height), 0, height))
  }

  /** Looking at the centre of the camera image puts the gaze at the centre of the canvas. */
  lemma GazeCentre(face: EyePair, width: int, height: int)
    requires width >= 0 && height >= 0
    requires (face.left.x + face.right.x) / 2.0 == 0.5 && (face.left.y + face.right.y) / 2.0 == 0.5
    ensures EyePosition(face, width, height) == (width / 2, height / 2)
  {
    assert GazeOffset(0.5, width) == 0.0 && GazeOffset(0.5, height) == 0.0;
    TruncOfInt(width / 2);
    TruncOfInt(height / 2);
    assert RawGaze(face.left.x, face.right.x, width) == width / 2;
    assert RawGaze(face.left.y, face.right.y, height) == height / 2;
  }

  /** The gaze coordinate is monotone in the eyelid midpoint. */
  lemma GazeMonotone(a: real, b: real, c: real, d: real, size: int)
    requires size >= 0 && (a + b) / 2.0 <= (c + d) / 2.0
    ensures RawGaze(a, b, size) <= RawGaze(c, d, size)
  {
    var g := size as real * Sensitivity;
    var u, v := (a + b) / 2.0, (c + d) / 2.0;
    assert g >= 0.0;
    assert (v - 0.5) * g - (u - 0.5) * g == (v - u) * g;
    assert (v - u) * g >= 0.0;
    TruncMonotone(GazeOffset(u, size) + (size / 2) as real, GazeOffset(v, size) + (size / 2) as real);
  }

  /** pygame.Rect(x, y, 150, 170).collidepoint: the right and bottom edges are outside. */
  predicate Contains(b: Balloon, px: int, py: int)
  {
    b.x <= px < b.x + BalloonW && b.y <= py < b.y + BalloonH
  }

  predicate InPool(b: Balloon)
  {
    MinX <= b.x <= MaxX && TopLimit <= b.y <= SpawnY
  }

  predicate ValidDraws(xs: seq<int>)
  {
    forall k | 0 <= k < |xs| :: MinX <= xs[k] <= MaxX
  }

  /** Fresh balloons at the bottom, one per drawn x. */
  function Spawned(xs: seq<int>): (bs: seq<Balloon>)
    ensures |bs| == |xs|
    ensures forall k | 0 <= k < |xs| :: bs[k] == Balloon(xs[k], SpawnY)
  {
    seq(|xs|, k requires 0 <= k < |xs| => Balloon(xs[k], SpawnY))
  }

  /** The balloons the eye point does not touch, in order. */
  function Kept(bs: seq<Balloon>, px: int, py: int): seq<Balloon>
    decreases |bs|
  {
    if bs == [] then []
    else
      var last := bs[|bs| - 1];
      Kept(bs[..|bs| - 1], px, py) + (if Contains(last, px, py) then [] else [last])
  }

  /** How many balloons the eye point touches. */
  function Hits(bs: seq<Balloon>, px: int, py: int): nat
    decreases |bs|
  {
    if bs == [] then 0
    else Hits(bs[..|bs| - 1], px, py) + (if Contains(bs[|bs| - 1], px, py) then 1 else 0)
  }

  /** Every balloon is either kept or hit: the kept balloons are exactly the untouched
      ones, each as often as it occurs in the pool, and the hits count the rest. */
  lemma {:induction false} KeptAndHits(bs: seq<Balloon>, px: int, py: int)
    ensures |Kept(bs, px, py)| + Hits(bs, px, py) == |bs|
    ensures forall b | b in Kept(bs, px, py) :: !Contains(b, px, py) && b in bs
    ensures forall k | 0 <= k < |bs| && !Contains(bs[k], px, py) :: bs[k] in Kept(bs, px, py)
    ensures forall b :: multiset(Kept(bs, px, py))[b] == if Contains(b, px, py) then 0 else multiset(bs)[b]
    decreases |bs|
  {
    if bs != [] {
      var init, last := bs[..|bs| - 1], bs[|bs| - 1];
      KeptAndHits(init, px, py);
      assert bs == init + [last];
      forall k | 0 <= k < |bs| && !Contains(bs[k], px, py) ensures bs[k] in Kept(bs, px, py) {
        if k < |init| {
          assert bs[k] == init[k];
        }
      }
    }
  }

  /** The pool after one face's hit pass: untouched balloons in order, then one fresh
      balloon per hit, the k-th hit taking the k-th drawn x. */
  function AfterHits(bs: seq<Balloon>, px: int, py: int, xs: seq<int>): seq<Balloon>
    requires |xs| >= |bs|
  {
    KeptAndHits(bs, px, py);
    Kept(bs, px, py) + Spawned(xs[..Hits(bs, px, py)])
  }

  /** A hit pass keeps the pool size and the pool bounds. */
  lemma AfterHitsPool(bs: seq<Balloon>, px: int, py: int, xs: seq<int>)
    requires |xs| >= |bs| && ValidDraws(xs)
    requires forall b | b in bs :: InPool(b)
    ensures |AfterHits(bs, px, py, xs)| == |bs|
    ensures forall b | b in AfterHits(bs, px, py, xs) :: InPool(b)
  {
    KeptAndHits(bs, px, py);
    var h := Hits(bs, px, py);
    var spawned := Spawned(xs[..h]);
    forall b | b in spawned ensures InPool(b) {
      var k :| 0 <= k < h && spawned[k] == b;
      assert xs[..h][k] == xs[k];
    }
  }

  /** One balloon's movement: up 2, back to the bottom at a new x once above -70. */
  function Rise(b: Balloon, redraw: int): (r: Balloon)
    ensures b.y - RiseStep >= TopLimit ==> r == Balloon(b.x, b.y - RiseStep)
    ensures b.y - RiseStep < TopLimit ==> r == Balloon(redraw, SpawnY)
    ensures InPool(b) && MinX <= redraw <= MaxX ==> InPool(r)
  {
    var moved := b.(y := b.y - RiseStep);
    if moved.y < TopLimit then moved.(y := SpawnY).(x := redraw) else moved
  }

  /** The movement loop over the whole pool; balloon k redraws with xs[k]. */
  function RiseAll(bs: seq<Balloon>, xs: seq<int>): (r: seq<Balloon>)
    requires |xs| >= |bs|
    ensures |r| == |bs|
    ensures forall k | 0 <= k < |bs| :: r[k] == Rise(bs[k], xs[k])
  {
    seq(|bs|, k requires 0 <= k < |bs| => Rise(bs[k], xs[k]))
  }

  /** The live list while the hit loop is at position i of its copy: the untouched
      balloons already passed, the ones still to test, then the fresh balloons. */
  function Live(s: seq<Balloon>, i: nat, px: int, py: int, xs: seq<int>, hits: nat): seq<Balloon>
    requires i <= |s| && hits <= |xs|
  {
    Kept(s[..i], px, py) + s[i..] + Spawned(xs[..hits])
  }

  /** Extending the tested prefix by one balloon. */
  lemma PrefixStep(s: seq<Balloon>, i: nat, px: int, py: int)
    requires i < |s|
    ensures Kept(s[..i + 1], px, py) == Kept(s[..i], px, py) + (if Contains(s[i], px, py) then [] else [s[i]])
    ensures Hits(s[..i + 1], px, py) == Hits(s[..i], px, py) + (if Contains(s[i], px, py) then 1 else 0)
  {
    PrefixSnoc(s, i);
  }

  /** One more draw spawns one more balloon at the end. */
  lemma SpawnedStep(xs: seq<int>, h: nat)
    requires h < |xs|
    ensures Spawned(xs[..h + 1]) == Spawned(xs[..h]) + [Balloon(xs[h], SpawnY)]
  {
    PrefixSnoc(xs, h);
  }

  /** A touched balloon is still in the live list, and removing it (the first equal
      element, as list.remove does) and appending a fresh one advances the loop. */
  lemma PopHitStep(s: seq<Balloon>, i: nat, px: int, py: int, xs: seq<int>, hits: nat)
    requires i < |s| && hits < |xs| && hits == Hits(s[..i], px, py)
    requires Contains(s[i], px, py)
    ensures s[i] in Live(s, i, px, py, xs, hits)
    ensures RemoveFirst(Live(s, i, px, py, xs, hits), s[i]) + [Balloon(xs[hits], SpawnY)]
            == Live(s, i + 1, px, py, xs, hits + 1)
    ensures Hits(s[..i + 1], px, py) == hits + 1
  {
    PrefixStep(s, i, px, py);
    assert s[i] !in Kept(s[..i], px, py) by {
      KeptAndHits(s[..i], px, py);
    }
    SuffixCons(s, i);
    SpawnedStep(xs, hits);
    RemoveThenAppend(Kept(s[..i], px, py), s[i], s[i + 1..], Spawned(xs[..hits]), Balloon(xs[hits], SpawnY));
  }

  /** The list algebra behind one pop: removing the first copy of `v` from just after
      `front` (which does not hold it) and appending `w`. */
  lemma RemoveThenAppend<T>(front: seq<T>, v: T, mid: seq<T>, tail: seq<T>, w: T)
    requires v !in front
    ensures v in front + ([v] + mid) + tail
    ensures RemoveFirst(front + ([v] + mid) + tail, v) + [w] == front + mid + (tail + [w])
  {
    ConcatAssoc(front, [v], mid);
    ConcatAssoc(front + [v], mid, tail);
    RemoveFirstAt(front, v, mid + tail);
  }

  /** The live list before the loop is the pool; after it, the pass's result. */
  lemma LiveEnds(s: seq<Balloon>, px: int, py: int, xs: seq<int>)
    requires |xs| >= |s|
    ensures Live(s, 0, px, py, xs, 0) == s
    ensures Hits(s[..|s|], px, py) == Hits(s, px, py) <= |xs|
    ensures Live(s, |s|, px, py, xs, Hits(s[..|s|], px, py)) == AfterHits(s, px, py, xs)
  {
    assert s[..0] == [] && s[0..] == s && xs[..0] == [];
    assert s[..|s|] == s && s[|s|..] == [];
    assert Hits(s, px, py) <= |s| by {
      KeptAndHits(s, px, py);
    }
  }

  /** An untouched balloon stays where it is. */
  lemma PopMissStep(s: seq<Balloon>, i: nat, px: int, py: int, xs: seq<int>, hits: nat)
    requires i < |s| && hits <= |xs| && hits == Hits(s[..i], px, py)
    requires !Contains(s[i], px, py)
    ensures Live(s, i, px, py, xs, hits) == Live(s, i + 1, px, py, xs, hits)
    ensures Hits(s[..i + 1], px, py) == hits
  {
    PrefixStep(s, i, px, py);
    SuffixCons(s, i);
  }

  /** The random numbers one frame consumes: a hit-respawn draw per balloon for each
      face, and a rise-respawn draw per balloon. */
  datatype BalloonFrame = BalloonFrame(faces: seq<EyePair>, hitDraws: seq<seq<int>>,
                                       riseDraws: seq<int>, quit: bool)

  predicate FrameOk(f: BalloonFrame)
  {
    && |f.hitDraws| == |f.faces|
    && DrawsOk(f.hitDraws)
    && |f.riseDraws| >= PoolSize && ValidDraws(f.riseDraws)
  }

  predicate PoolOk(bs: seq<Balloon>)
  {
    |bs| == PoolSize && forall b | b in bs :: InPool(b)
  }

  predicate DrawsOk(draws: seq<seq<int>>)
  {
    forall k | 0 <= k < |draws| :: |draws[k]| >= PoolSize && ValidDraws(draws[k])
  }

  /** The hit passes of a frame's faces, in order: new pool and points scored. */
  function FaceHits(bs: seq<Balloon>, faces: seq<EyePair>, draws: seq<seq<int>>): (r: (seq<Balloon>, nat))
    requires |draws| == |faces| && PoolOk(bs) && DrawsOk(draws)
    ensures PoolOk(r.0)
    decreases |faces|
  {
    if faces == [] then (bs, 0)
    else
      var p := EyePosition(faces[0], Width, Height);
      AfterHitsPool(bs, p.0, p.1, draws[0]);
      var after := AfterHits(bs, p.0, p.1, draws[0]);
      var (final, points) := FaceHits(after, faces[1..], draws[1..]);
      (final, Hits(bs, p.0, p.1) + points)
  }

  /** The pool after a whole game frame: every face's hit pass, then the movement loop. */
  lemma TickKeepsPool(bs: seq<Balloon>, f: BalloonFrame)
    requires PoolOk(bs) && FrameOk(f)
    ensures PoolOk(RiseAll(FaceHits(bs, f.faces, f.hitDraws).0, f.riseDraws))
  {
    var mid := FaceHits(bs, f.faces, f.hitDraws).0;
    var r := RiseAll(mid, f.riseDraws);
    forall b | b in r ensures InPool(b) {
      var k :| 0 <= k < |r| && r[k] == b;
      assert InPool(mid[k]);
    }
  }

  /** The balloon list initialised at start-up: five balloons at the bottom. */
  lemma InitialPool(xs: seq<int>)
    requires |xs| == PoolSize && ValidDraws(xs)
    ensures PoolOk(Spawned(xs))
    ensures forall b | b in Spawned(xs) :: b.y == SpawnY
  {
    forall b | b in Spawned(xs) ensures InPool(b) && b.y == SpawnY {
      var k :| 0 <= k < PoolSize && Spawned(xs)[k] == b;
    }
  }

  /** The game's globals. */
  datatype GameState = GameState(balloons: seq<Balloon>, score: nat, running: bool)

  /** One iteration of `while running` after a successful read. */
  function GameTick(s: GameState, f: BalloonFrame): (r: GameState)
    requires PoolOk(s.balloons) && FrameOk(f)
    ensures PoolOk(r.balloons)
    ensures r.score >= s.score
    ensures r.running == (s.running && !f.quit)
  {
    TickKeepsPool(s.balloons, f);
    var (mid, points) := FaceHits(s.balloons, f.faces, f.hitDraws);
    GameState(RiseAll(mid, f.riseDraws), s.score + points, s.running && !f.quit)
  }

  predicate CapturesOk(captures: seq<Option<BalloonFrame>>)
  {
    forall k | 0 <= k < |captures| :: captures[k].Some? ==> FrameOk(captures[k].value)
  }

  /** `while running`: the final state and the number of frames played, up to the
      first failed read or the frame in which the window is closed. */
  function Play(s: GameState, captures: seq<Option<BalloonFrame>>): (r: (GameState, nat))
    requires PoolOk(s.balloons) && CapturesOk(captures)
    ensures PoolOk(r.0.balloons)
    ensures r.1 <= |captures|
    decreases |captures|
  {
    if !s.running || captures == [] || captures[0].None? then (s, 0)
    else
      var next := Play(GameTick(s, captures[0].value), captures[1..]);
      (next.0, next.1 + 1)
  }

  /** The score never decreases, every played frame was a successful read, and the
      loop only stops early because the window was closed. */
  lemma {:induction false} PlayFacts(s: GameState, captures: seq<Option<BalloonFrame>>)
    requires PoolOk(s.balloons) && CapturesOk(captures)
    ensures Play(s, captures).0.score >= s.score
    ensures forall k | 0 <= k < Play(s, captures).1 :: captures[k].Some?
    ensures !s.running ==> Play(s, captures) == (s, 0)
    ensures var (final, frames) := Play(s, captures);
            frames < |captures| && final.running ==> captures[frames].None?
    decreases |captures|
  {
    if s.running && captures != [] && captures[0].Some? {
      var t := GameTick(s, captures[0].value);
      PlayFacts(t, captures[1..]);
      var frames := Play(s, captures).1;
      forall k | 0 <= k < frames
        ensures captures[k].Some?
      {
        if k > 0 {
          assert captures[k] == captures[1..][k - 1];
        }
      }
      if frames < |captures| {
        assert captures[frames] == captures[1..][frames - 1];
      }
    }
  }

  class BalloonGame {
    var balloons: seq<Balloon>
    var score: nat
    var running: bool

    ghost predicate Valid()
      reads this
    {
      PoolOk(balloons)
    }

    function State(): GameState
      reads this
    {
      GameState(balloons, score, running)
    }

    /** Start-up: five balloons at the bottom, score 0, running. */
    constructor (xs: seq<int>)
      requires |xs| == PoolSize && ValidDraws(xs)
      ensures Valid()
      ensures balloons == Spawned(xs) && score == 0 && running
    {
      InitialPool(xs);
      balloons := Spawned(xs);
      score := 0;
      running := true;
    }

    /** `for balloon in balloons[:]`: remove each touched balloon, append a fresh
        one, score a point. Balloons appended here are not in the copy and so are
        not tested again this frame. */
    method PopHits(px: int, py: int, xs: seq<int>)
      requires |xs| >= |balloons|
      modifies this`balloons, this`score
      ensures balloons == AfterHits(old(balloons), px, py, xs)
      ensures score == old(score) + Hits(old(balloons), px, py)
    {
      var snapshot := balloons;
      var hits := 0;
      var i := 0;
      LiveEnds(snapshot, px, py, xs);
      while i < |snapshot|
        invariant 0 <= i <= |snapshot| && snapshot == old(balloons)
        invariant hits == Hits(snapshot[..i], px, py) && hits <= i
        invariant balloons == Live(snapshot, i, px, py, xs, hits)
        invariant score == old(score) + hits
      {
        var b := snapshot[i];
        if Contains(b, px, py) {
          PopHitStep(snapshot, i, px, py, xs, hits);
          balloons := RemoveFirst(balloons, b) + [Balloon(xs[hits], SpawnY)];
          score := score + 1;
          hits := hits + 1;
        } else {
          PopMissStep(snapshot, i, px, py, xs, hits);
        }
        i := i + 1;
      }
    }

    /** The movement loop: every balloon rises, even in a frame without a face. */
    method RiseBalloons(xs: seq<int>)
      requires |xs| >= |balloons|
      modifies this`balloons
      ensures balloons == RiseAll(old(balloons), xs)
    {
      var i := 0;
      while i < |balloons|
        invariant 0 <= i <= |balloons| == |old(balloons)|
        invariant forall k | 0 <= k < i :: balloons[k] == Rise(old(balloons)[k], xs[k])
        invariant forall k | i <= k < |balloons| :: balloons[k] == old(balloons)[k]
      {
        var b := balloons[i];
        b := b.(y := b.y - RiseStep);
        if b.y < TopLimit {
          b := b.(y := SpawnY);
          b := b.(x := xs[i]);
        }
        balloons := balloons[i := b];
        i := i + 1;
      }
    }

    /** `for face_landmarks in results.multi_face_landmarks`: one hit pass per face. */
    method PopAllFaces(faces: seq<EyePair>, draws: seq<seq<int>>)
      requires Valid() && |draws| == |faces| && DrawsOk(draws)
      modifies this`balloons, this`score
      ensures balloons == FaceHits(old(balloons), faces, draws).0
      ensures score == old(score) + FaceHits(old(balloons), faces, draws).1
    {
      var k := 0;
      while k < |faces|
        invariant 0 <= k <= |faces| && Valid()
        invariant FaceHits(old(balloons), faces, draws).0 == FaceHits(balloons, faces[k..], draws[k..]).0
        invariant FaceHits(old(balloons), faces, draws).1 ==
                  score - old(score) + FaceHits(balloons, faces[k..], draws[k..]).1
      {
        var p := EyePosition(faces[k], Width, Height);
        SuffixStep(faces, k);
        SuffixStep(draws, k);
        AfterHitsPool(balloons, p.0, p.1, draws[k]);
        PopHits(p.0, p.1, draws[k]);
        k := k + 1;
      }
    }

    /** One iteration of `while running` after a successful read. */
    method Tick(f: BalloonFrame)
      requires Valid() && FrameOk(f)
      modifies this
      ensures Valid()
      ensures State() == GameTick(old(State()), f)
    {
      TickKeepsPool(balloons, f);
      PopAllFaces(f.faces, f.hitDraws);
      RiseBalloons(f.riseDraws);
      if f.quit {
        running := false;
      }
    }

    /** The game loop: stop on a failed read or once the window is closed. */
    method Run(captures: seq<Option<BalloonFrame>>) returns (frames: nat)
      requires Valid() && CapturesOk(captures)
      modifies this
      ensures Valid()
      ensures State() == Play(old(State()), captures).0
      ensures frames == Play(old(State()), captures).1
    {
      frames := 0;
      while running
        invariant Valid() && frames <= |captures|
        invariant Play(old(State()), captures).0 == Play(State(), captures[frames..]).0
        invariant Play(old(State()), captures).1 == frames + Play(State(), captures[frames..]).1
        decreases |captures| - frames, running
      {
        if frames >= |captures| || captures[frames].None? {
          break;
        }
        SuffixStep(captures, frames);
        Tick(captures[frames].value);
        frames := frames + 1;
      }
    }
  }
}
