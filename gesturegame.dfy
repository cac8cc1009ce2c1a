/** The hand-gesture dodge game: a character steered left or right by the index
    fingertip, asteroids falling at a fixed speed, game over on a collision and a
    point for every asteroid that leaves the bottom of the screen. */
module GestureGame {
  import opened Common

  const FrameWidth: int := 800
  const CharStartX: int := 340
  const CharY: int := 480
  const CharSpeed: int := 20
  const CharSize: int := 120
  const CharMaxX: int := 680
  const AstSpeed: int := 8
  const ScreenBottom: int := 600
  const SpawnMinX: int := 50
  const SpawnMaxX: int := 750
  const SpawnRate: real := 0.05

  /** An asteroid is the two-element list [x, y]. */
  datatype Asteroid = Asteroid(x: int, y: int)

  /** detect_hand_movement: 20 to the left when the fingertip is in the left half of
      the 800-pixel frame, 20 to the right otherwise. */
  function DetectHandMovement(charX: int, indexX: real): (r: int)
    ensures r == if indexX < 0.5 then charX - CharSpeed else charX + CharSpeed
  {
    var x := Trunc(indexX * FrameWidth as real);
    if x < 400 then charX - CharSpeed else charX + CharSpeed
  }

  /** One movement per detected hand, in order, before any clamping. */
  function MoveForHands(charX: int, xs: seq<real>): int
    decreases |xs|
  {
    if xs == [] then charX else MoveForHands(DetectHandMovement(charX, xs[0]), xs[1..])
  }

  /** The character's position after the hands of a frame, kept on screen. */
  function CharAfterHands(charX: int, xs: seq<real>): (c: int)
    ensures 0 <= c <= CharMaxX
  {
    Clamp(MoveForHands(charX, xs), 0, CharMaxX)
  }

  function Fall(a: Asteroid): Asteroid { a.(y := a.y + AstSpeed) }

  predicate OffScreen(a: Asteroid) { a.y > ScreenBottom }

  /** The collision window: below the character's top edge and strictly between its sides. */
  predicate Collides(a: Asteroid, charX: int)
  {
    a.y > CharY && charX < a.x < charX + CharSize
  }

  /** The asteroids still on screen after falling, in order. */
  function Survivors(s: seq<Asteroid>): seq<Asteroid>
    decreases |s|
  {
    if s == [] then []
    else
      var m := Fall(s[|s| - 1]);
      Survivors(s[..|s| - 1]) + (if OffScreen(m) then [] else [m])
  }

  /** How many asteroids leave the screen, one point each. */
  function Fallen(s: seq<Asteroid>): nat
    decreases |s|
  {
    if s == [] then 0 else Fallen(s[..|s| - 1]) + (if OffScreen(Fall(s[|s| - 1])) then 1 else 0)
  }

  /** Whether some asteroid, after falling, hits the character. */
  function Collided(s: seq<Asteroid>, charX: int): bool
    decreases |s|
  {
    s != [] && (Collided(s[..|s| - 1], charX) || Collides(Fall(s[|s| - 1]), charX))
  }

  /** Survivors and fallen asteroids account for all of them, and survivors are on screen. */
  lemma {:induction false} SurvivorsOnScreen(s: seq<Asteroid>)
    ensures |Survivors(s)| + Fallen(s) == |s|
    ensures forall a | a in Survivors(s) :: !OffScreen(a)
    decreases |s|
  {
    if s != [] {
      SurvivorsOnScreen(s[..|s| - 1]);
    }
  }

  /** Every asteroid falls exactly 8 and is kept unless that takes it off the bottom:
      survivors are exactly the fallen asteroids still on screen, each as often as its
      original occurs in the input. */
  lemma {:induction false} SurvivorsFell(s: seq<Asteroid>)
    ensures forall a | a in Survivors(s) :: exists b | b in s :: a == Fall(b)
    ensures forall k | 0 <= k < |s| && !OffScreen(Fall(s[k])) :: Fall(s[k]) in Survivors(s)
    ensures forall b :: multiset(Survivors(s))[Fall(b)] == if OffScreen(Fall(b)) then 0 else multiset(s)[b]
    decreases |s|
  {
    if s != [] {
      var init, last := s[..|s| - 1], s[|s| - 1];
      SurvivorsFell(init);
      assert s == init + [last];
      forall k | 0 <= k < |s| && !OffScreen(Fall(s[k])) ensures Fall(s[k]) in Survivors(s) {
        if k < |init| {
          assert s[k] == init[k];
        }
      }
      forall b ensures multiset(Survivors(s))[Fall(b)] == if OffScreen(Fall(b)) then 0 else multiset(s)[b] {
        assert Fall(b) == Fall(last) <==> b == last;
      }
      forall a | a in Survivors(s) ensures exists b | b in s :: a == Fall(b) {
        if a in Survivors(s[..|s| - 1]) {
          var b :| b in s[..|s| - 1] && a == Fall(b);
          assert b in s;
        } else {
          assert a == Fall(s[|s| - 1]);
        }
      }
    }
  }

  /** The recursive collision test agrees with "some asteroid collides". */
  lemma {:induction false} CollidedIff(s: seq<Asteroid>, charX: int)
    ensures Collided(s, charX) <==> exists k | 0 <= k < |s| :: Collides(Fall(s[k]), charX)
    decreases |s|
  {
    if s != [] {
      var init := s[..|s| - 1];
      CollidedIff(init, charX);
      if Collided(init, charX) {
        var k :| 0 <= k < |init| && Collides(Fall(init[k]), charX);
        assert s[k] == init[k];
      }
      if exists k | 0 <= k < |s| :: Collides(Fall(s[k]), charX) {
        var k :| 0 <= k < |s| && Collides(Fall(s[k]), charX);
        if k < |init| {
          assert init[k] == s[k];
        }
      }
    }
  }

  /** The live list while the movement loop is at position i of its copy. */
  function LiveAsteroids(s: seq<Asteroid>, i: nat): seq<Asteroid>
    requires i <= |s|
  {
    Survivors(s[..i]) + s[i..]
  }

  /** Extending the processed prefix by one asteroid. */
  lemma PrefixStep(s: seq<Asteroid>, i: nat, charX: int)
    requires i < |s|
    ensures Survivors(s[..i + 1]) ==
              Survivors(s[..i]) + (if OffScreen(Fall(s[i])) then [] else [Fall(s[i])])
    ensures Fallen(s[..i + 1]) == Fallen(s[..i]) + (if OffScreen(Fall(s[i])) then 1 else 0)
    ensures Collided(s[..i + 1], charX) == (Collided(s[..i], charX) || Collides(Fall(s[i]), charX))
  {
    PrefixSnoc(s, i);
  }

  /** In the live list the asteroid being processed sits right after the survivors so far. */
  lemma LiveAt(s: seq<Asteroid>, i: nat)
    requires i < |s|
    ensures LiveAsteroids(s, i) == Survivors(s[..i]) + [s[i]] + s[i + 1..]
  {
    SuffixCons(s, i);
  }

  /** An asteroid that stays on screen is moved in place. */
  lemma MoveInPlace(s: seq<Asteroid>, i: nat)
    requires i < |s| && !OffScreen(Fall(s[i]))
    ensures LiveAsteroids(s, i)[|Survivors(s[..i])| := Fall(s[i])] == LiveAsteroids(s, i + 1)
  {
    LiveAt(s, i);
    PrefixStep(s, i, 0);
    var front := Survivors(s[..i]);
    UpdateAfter(front, s[i], s[i + 1..], Fall(s[i]));
  }

  /** An asteroid that falls off the bottom is moved and then removed by value; the
      first element with that value is this one, since every survivor before it is on
      screen. */
  lemma MoveAndRemove(s: seq<Asteroid>, i: nat)
    requires i < |s| && OffScreen(Fall(s[i]))
    ensures var upd := LiveAsteroids(s, i)[|Survivors(s[..i])| := Fall(s[i])];
            Fall(s[i]) in upd && RemoveFirst(upd, Fall(s[i])) == LiveAsteroids(s, i + 1)
  {
    LiveAt(s, i);
    PrefixStep(s, i, 0);
    var front := Survivors(s[..i]);
    var m := Fall(s[i]);
    UpdateAfter(front, s[i], s[i + 1..], m);
    SurvivorsOnScreen(s[..i]);
    assert m !in front;
    RemoveFirstAt(front, m, s[i + 1..]);
  }

  /** The whole game state. */
  datatype DodgeState = DodgeState(charX: int, asteroids: seq<Asteroid>, score: nat, running: bool)

  /** What one frame feeds the game: index fingertip x of each hand, the random
      roll for spawning, the x a spawned asteroid would get, and a window close. */
  datatype DodgeFrame = DodgeFrame(handXs: seq<real>, roll: real, spawnX: int, quit: bool)

  predicate FrameOk(f: DodgeFrame)
  {
    0.0 <= f.roll < 1.0 && SpawnMinX <= f.spawnX <= SpawnMaxX
  }

  predicate StateOk(s: DodgeState)
  {
    && 0 <= s.charX <= CharMaxX
    && forall a | a in s.asteroids :: 0 <= a.y <= ScreenBottom && SpawnMinX <= a.x <= SpawnMaxX
  }

  /** One iteration of `while running`. */
  function DodgeTick(s: DodgeState, f: DodgeFrame): DodgeState
  {
    var c := CharAfterHands(s.charX, f.handXs);
    var surv := Survivors(s.asteroids);
    var rocks := if f.roll < SpawnRate then surv + [Asteroid(f.spawnX, 0)] else surv;
    DodgeState(c, rocks, s.score + Fallen(s.asteroids),
               s.running && !Collided(s.asteroids, c) && !f.quit)
  }

  /** A frame keeps the character on screen and every asteroid inside the board;
      the score never drops, a stopped game stays stopped, and a collision with the
      clamped character, or a close, stops it. */
  lemma TickFacts(s: DodgeState, f: DodgeFrame)
    requires StateOk(s) && FrameOk(f)
    ensures StateOk(DodgeTick(s, f))
    ensures DodgeTick(s, f).score == s.score + Fallen(s.asteroids) >= s.score
    ensures DodgeTick(s, f).running <==>
              s.running && !f.quit &&
              !exists k | 0 <= k < |s.asteroids| ::
                Collides(Fall(s.asteroids[k]), CharAfterHands(s.charX, f.handXs))
    ensures DodgeTick(s, f).asteroids ==
              Survivors(s.asteroids) + (if f.roll < SpawnRate then [Asteroid(f.spawnX, 0)] else [])
    ensures |DodgeTick(s, f).asteroids| <= |s.asteroids| - Fallen(s.asteroids) + 1
    ensures f.roll >= SpawnRate ==> |DodgeTick(s, f).asteroids| == |s.asteroids| - Fallen(s.asteroids)
  {
    var surv := Survivors(s.asteroids);
    SurvivorsOnScreen(s.asteroids);
    SurvivorsFell(s.asteroids);
    CollidedIff(s.asteroids, CharAfterHands(s.charX, f.handXs));
    forall a | a in surv ensures 0 <= a.y <= ScreenBottom && SpawnMinX <= a.x <= SpawnMaxX {
      var b :| b in s.asteroids && a == Fall(b);
    }
  }

  /** The game loop over a finite run of frames: it stops at the first frame that
      ends the game. */
  function DodgeRun(s: DodgeState, fs: seq<DodgeFrame>): DodgeState
    decreases |fs|
  {
    if fs == [] || !s.running then s else DodgeRun(DodgeTick(s, fs[0]), fs[1..])
  }

  /** Game over is final: once running is false no later frame changes anything. */
  lemma StoppedStaysStopped(s: DodgeState, fs: seq<DodgeFrame>)
    requires !s.running
    ensures DodgeRun(s, fs) == s
  {
  }

  /** Over a whole run the state stays well formed, the score never drops and the
      game is either still running or has stopped for good. */
  lemma {:induction false} RunKeepsState(s: DodgeState, fs: seq<DodgeFrame>)
    requires StateOk(s)
    requires forall k | 0 <= k < |fs| :: FrameOk(fs[k])
    ensures StateOk(DodgeRun(s, fs))
    ensures DodgeRun(s, fs).score >= s.score
    ensures DodgeRun(s, fs).running ==> s.running
    decreases |fs|
  {
    if fs != [] && s.running {
      TickFacts(s, fs[0]);
      RunKeepsState(DodgeTick(s, fs[0]), fs[1..]);
    }
  }

  class DodgeGame {
    var charX: int
    var asteroids: seq<Asteroid>
    var score: nat
    var running: bool

    function State(): DodgeState
      reads this
    {
      DodgeState(charX, asteroids, score, running)
    }

    ghost predicate Valid()
      reads this
    {
      StateOk(State())
    }

    /** Start-up: character at 340, no asteroids, score 0, running. */
    constructor ()
      ensures Valid() && State() == DodgeState(CharStartX, [], 0, true)
    {
      charX := CharStartX;
      asteroids := [];
      score := 0;
      running := true;
    }

    /** spawn_asteroid: a new asteroid at the top, at the drawn x. */
    method SpawnAsteroid(x: int)
      modifies this`asteroids
      ensures asteroids == old(asteroids) + [Asteroid(x, 0)]
    {
      asteroids := asteroids + [Asteroid(x, 0)];
    }

    /** detect_hand_movement on the global char_x. */
    method MoveCharacter(indexX: real)
      modifies this`charX
      ensures charX == DetectHandMovement(old(charX), indexX)
    {
      var x := Trunc(indexX * FrameWidth as real);
      if x < 400 {
        charX := charX - CharSpeed;
      } else {
        charX := charX + CharSpeed;
      }
    }

    /** All detected hands, then the clamp to [0, 680]. */
    method HandleHands(xs: seq<real>)
      modifies this`charX
      ensures charX == CharAfterHands(old(charX), xs)
    {
      var i := 0;
      while i < |xs|
        invariant 0 <= i <= |xs|
        invariant MoveForHands(old(charX), xs) == MoveForHands(charX, xs[i..])
      {
        SuffixStep(xs, i);
        MoveCharacter(xs[i]);
        i := i + 1;
      }
      // max(0, min(680, char_x))
      var capped := if CharMaxX < charX then CharMaxX else charX;
      charX := if 0 > capped then 0 else capped;
    }

    /** The body of `for asteroid in asteroids[:]` for the i-th asteroid of the copy,
        which sits at position `kept` of the live list. */
    method StepAsteroid(ghost snapshot: seq<Asteroid>, i: nat, kept: nat) returns (nextKept: nat)
      requires i < |snapshot| && asteroids == LiveAsteroids(snapshot, i)
      requires kept == |Survivors(snapshot[..i])|
      modifies this`asteroids, this`score, this`running
      ensures asteroids == LiveAsteroids(snapshot, i + 1)
      ensures nextKept == |Survivors(snapshot[..i + 1])|
      ensures score == old(score) + (if OffScreen(Fall(snapshot[i])) then 1 else 0)
      ensures running == (old(running) && !Collides(Fall(snapshot[i]), charX))
    {
      PrefixStep(snapshot, i, charX);
      LiveAt(snapshot, i);
      var a := asteroids[kept];
      asteroids := asteroids[kept := a.(y := a.y + AstSpeed)];
      var moved := asteroids[kept];
      if moved.y > CharY && charX < moved.x < charX + CharSize {
        running := false;
      }
      if moved.y > ScreenBottom {
        MoveAndRemove(snapshot, i);
        asteroids := RemoveFirst(asteroids, moved);
        score := score + 1;
        nextKept := kept;
      } else {
        MoveInPlace(snapshot, i);
        nextKept := kept + 1;
      }
    }

    /** `for asteroid in asteroids[:]`: fall, test for a collision, drop and score
        the ones off the bottom. The remaining asteroids are still processed after
        a collision. */
    method UpdateAsteroids()
      modifies this`asteroids, this`score, this`running
      ensures asteroids == Survivors(old(asteroids))
      ensures score == old(score) + Fallen(old(asteroids))
      ensures running == (old(running) && !Collided(old(asteroids), charX))
    {
      var snapshot := asteroids;
      var kept := 0;
      var i := 0;
      assert snapshot[..0] == [] && snapshot[0..] == snapshot;
      while i < |snapshot|
        invariant 0 <= i <= |snapshot| && snapshot == old(asteroids)
        invariant asteroids == LiveAsteroids(snapshot, i)
        invariant kept == |Survivors(snapshot[..i])|
        invariant score == old(score) + Fallen(snapshot[..i])
        invariant running == (old(running) && !Collided(snapshot[..i], charX))
      {
        PrefixStep(snapshot, i, charX);
        kept := StepAsteroid(snapshot, i, kept);
        i := i + 1;
      }
      assert snapshot[..i] == snapshot;
    }

    /** One iteration of `while running`. */
    method Tick(f: DodgeFrame)
      requires Valid() && FrameOk(f)
      modifies this
      ensures State() == DodgeTick(old(State()), f)
      ensures Valid()
    {
      ghost var next := DodgeTick(State(), f);
      assert StateOk(next) by {
        TickFacts(State(), f);
      }
      HandleHands(f.handXs);
      UpdateAsteroids();
      if f.roll < SpawnRate {
        SpawnAsteroid(f.spawnX);
      }
      if f.quit {
        running := false;
      }
    }

    /** `while running` over the frames supplied. */
    method Run(fs: seq<DodgeFrame>) returns (ticks: nat)
      requires Valid() && forall k :: 0 <= k < |fs| ==> FrameOk(fs[k])
      modifies this
      ensures State() == DodgeRun(old(State()), fs)
      ensures Valid()
      ensures ticks <= |fs|
      ensures running ==> ticks == |fs|
    {
      ticks := 0;
      while running && ticks < |fs|
        invariant ticks <= |fs| && Valid()
        invariant DodgeRun(old(State()), fs) == DodgeRun(State(), fs[ticks..])
      {
        SuffixStep(fs, ticks);
        Tick(fs[ticks]);
        ticks := ticks + 1;
      }
    }
  }
}
