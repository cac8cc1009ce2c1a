# Gesture and gaze control: the per-frame decision core

This project models the decision and state-update logic inside the camera loops of a
small gesture-, gaze- and game-control backend. The loops cover three kinds of program:

- two pointer controllers: hand gestures (`hand.py`, `hand1.py`) and eye gaze (`eye.py`);
- two camera games: balloon popping by gaze (`eyegame.py`) and asteroid dodging by hand
  position (`gesturegame.py`);
- the start/terminate control surface that records the one active program (`main.py`).

Camera frames, landmark inference, the clock and random draws become inputs. Operating
system effects (pointer moves, clicks, hotkeys, screenshots) become emitted values.

One module per source file:

| module | file | form |
|---|---|---|
| `Common` | shared | Python `int()` on floats (truncation toward zero), `max(lo, min(v, hi))`, the 0.3 exponential smoothing step, `list.remove` |
| `HandControl` | hand.py | the if/elif cascade as a function; the controller as a class over `prev_x`, `prev_y` and `last_action_time`, proved against `HandStep`/`Trace` |
| `EyeGame` | eyegame.py | `get_eye_position` as a function; the balloon list, score and running flag as a class, each loop proved against a function of the old state |
| `GestureGame` | gesturegame.py | `char_x`, the asteroid list, score and running flag as a class, proved against `DodgeTick`/`DodgeRun` |
| `Control` | main.py | `active_program` as a class field; `start_program`/`terminate_program` proved against pure transition functions |
| `EyeMouse` | eye.py | the `while True` generator as a method producing its sequence of effects, proved against `Stream` |
| `Hand1` | hand1.py | the module globals as a class; `_handle_hand_tracking` and `_tracking_loop` as methods with loops, proved against `TrackHands`/`TrackingLoop` |

In-place list algorithms keep their shape:

- **Balloon hit loop.** The loop iterates over a copy of `balloons`. It removes each hit balloon with `list.remove` and appends a fresh one.
- **Asteroid loop.** The loop iterates over a copy of `asteroids` and moves each asteroid in place. It removes off-screen asteroids by value.

In both loops the model tracks where the current element sits in the live list. It proves that removing by value deletes exactly that element (`Common.RemoveFirstAt`).

Behaviour of the code worth noting:

- The debounce gate in hand.py is strict (`now - last > 0.5`).
- eye.py has no debounce. A blink held over two frames clicks twice, once per frame, with the one-second sleep in between (`EyeMouse.GapSequenceClicksTwice`).
- `start_program` records the name before validating it. Starting a program while another is active overwrites the recorded name, and an unknown name is recorded too.
- `main.py` imports `hand` for the hand controller, not `hand1`. Both are modelled on their own.
- Python's `int()` of a float truncates toward zero. It differs from floor only on negative non-integers.

## Model

| member | source | states |
|---|---|---|
| Common.Trunc | hand.py:39 | `int()` of a float truncates toward zero: within 1 of the argument on the side of zero |
| Common.TruncMonotone | eyegame.py:42-43 | `int()` is monotone |
| Common.Clamp | eyegame.py:45 | `max(lo, min(v, hi))` lies in [lo, hi], is v inside the range and the nearer bound outside it |
| Common.Smooth | hand.py:42-44 | one smoothing step lies between prev and target, and the remaining distance is exactly 0.7 of the old one |
| Common.SmoothConverges | hand.py:42-44 | after n steps toward a held target the remaining distance is exactly the first one shrunk n times by 0.7 |
| Common.DecayIsPow | hand.py:42-44 | shrinking a distance n times by 0.7 is multiplying it by 0.7^n |
| Common.SmoothNoOvershoot | hand.py:42-44 | iterated smoothing never overshoots: every iterate stays between start and target |
| Common.RemoveFirst | eyegame.py:66 | `list.remove(v)` on a list holding v makes it one element shorter |
| Common.RemoveFirstMultiset | eyegame.py:66 | `list.remove(v)` drops exactly one occurrence of v: the same multiset minus one v |
| Common.RemoveFirstAt | eyegame.py:63-66 | when nothing before v equals it, `remove(v)` deletes exactly that element |
| HandControl.GateOpen | hand.py:50-77 | the shared debounce gate: strictly more than 0.5 s since the last discrete action (`now - last > 0.5`); used by every discrete branch; its consequences are in `Classify` and `DebounceSpacing` |
| HandControl.Classify | hand.py:50-77 | the cascade in source order: each gesture iff its condition and no earlier one; discrete gestures only with the gate open; swipe never; inside the window all-up gives a cursor move and all-down gives nothing |
| HandControl.SwipeShadowedByCursor | hand.py:60-67 | the swipe condition implies the cursor condition, so the swipe branch is unreachable |
| HandControl.ActionFor | hand.py:50-77 | no action iff no gesture; the cursor move goes to the smoothed point with duration 0.05; discrete gestures never move the pointer |
| HandControl.TargetX | hand.py:39 | the cursor target's x: `int(index_tip.x * screen_width)`, truncated toward zero |
| HandControl.TargetY | hand.py:39 | the cursor target's y: `int(index_tip.y * screen_height)`, truncated toward zero |
| HandControl.HandStep | hand.py:39-77 | per hand: both axes smoothed before classification; at most one event; a discrete event only with the gate open and it sets the timestamp to now; otherwise the timestamp is unchanged |
| HandControl.Trace | hand.py:26-77 | the events of a batch of hands, each hand one `HandStep` from the state the previous one left; split over concatenation in `TraceAppend`, spacing in `DebounceSpacing` |
| HandControl.Final | hand.py:26-77 | the state after a batch of hands; split over concatenation in `TraceAppend` |
| HandControl.TraceAppend | hand.py:26-77 | processing two batches of hands in turn is processing their concatenation |
| HandControl.DiscreteAfterGate | hand.py:47-77 | every discrete action fires more than 0.5 s after the timestamp the run started with |
| HandControl.DebounceSpacing | hand.py:50-77 | any two discrete actions of a run, whatever their kinds, are more than 0.5 s apart |
| HandControl.Consumed | hand.py:17-81 | the hands of the frames read before the first failure, through the frame where 'q' is pressed; properties in `ConsumedStopsAtFailure` and `RunFramesConsumed` |
| HandControl.RunFrames | hand.py:17-81 | the capture loop frame by frame: final state and events; equal to one batch over `Consumed` by `RunFramesConsumed` |
| HandControl.ConsumedStopsAtFailure | hand.py:17-20 | nothing after the first failed read is ever processed |
| HandControl.RunFramesConsumed | hand.py:17-81 | running the frames one at a time, up to a failed read or through the frame where 'q' is pressed, is running the hands of those frames as one batch |
| HandControl.HandController.constructor | hand.py:12-15 | cursor at the pointer position, timestamp at the start time |
| HandControl.HandController.ProcessHand | hand.py:39-77 | the imperative cascade leaves exactly the state and event of `HandStep` |
| HandControl.HandController.ProcessFrame | hand.py:25-77 | the per-hand loop produces `Trace` and leaves `Final` |
| HandControl.HandController.Run | hand.py:17-81 | the frame loop processes exactly the hands up to a failed read or the frame where 'q' is pressed |
| EyeGame.GazeOffset | eyegame.py:42-43 | the eyelid midpoint's offset from 0.5, scaled by the canvas size times the sensitivity 1.5 |
| EyeGame.RawGaze | eyegame.py:38-43 | one unclamped gaze coordinate: `int(GazeOffset(midpoint) + size // 2)` with int() truncating; `GazeCentre` and `GazeMonotone` state its properties |
| EyeGame.EyePosition | eyegame.py:32-45 | the gaze point always lies in [0,width]x[0,height] and equals the unclamped formula when that is in range |
| EyeGame.GazeCentre | eyegame.py:38-45 | a midpoint of exactly (0.5, 0.5) maps to (width//2, height//2) |
| EyeGame.GazeMonotone | eyegame.py:38-43 | the gaze coordinate is monotone in the eyelid midpoint |
| EyeGame.Spawned | eyegame.py:16 | one balloon at y 600 per drawn x, in order; the pool facts are in `InitialPool` and `AfterHitsPool` |
| EyeGame.Contains | eyegame.py:64-65 | `pygame.Rect(x, y, 150, 170).collidepoint`: the half-open rectangle x <= px < x+150 and y <= py < y+170, so the right and bottom edges miss |
| EyeGame.Kept | eyegame.py:63-66 | the balloons the eye point does not touch, in order; see `KeptAndHits` |
| EyeGame.Hits | eyegame.py:63-68 | the number of balloons the eye point touches; see `KeptAndHits` |
| EyeGame.AfterHits | eyegame.py:63-68 | one face's hit pass: kept balloons, then one fresh balloon per hit; the pool facts are in `AfterHitsPool`, the in-place loop is proved equal to it in `BalloonGame.PopHits` |
| EyeGame.KeptAndHits | eyegame.py:63-68 | every balloon is either kept or hit: kept balloons are exactly the untouched ones (each untouched balloon is kept, no touched one is, with the same multiplicity as in the pool), and the kept count plus the hits is the pool size |
| EyeGame.AfterHitsPool | eyegame.py:63-68 | a hit pass keeps the pool at its size and within x in [100,700], y in [-70,600] |
| EyeGame.Rise | eyegame.py:73-76 | a balloon rises 2 and, once its y is below -70 (past the top edge), resets to y 600 at the drawn x; stays in the pool bounds |
| EyeGame.RiseAll | eyegame.py:71-76 | every balloon of the pool takes one `Rise` step, with its own draw; that it keeps the pool is `TickKeepsPool` |
| EyeGame.PopHitStep | eyegame.py:63-68 | a hit balloon is still in the live list; removing it and appending a fresh one advances the loop and counts one hit |
| EyeGame.LiveEnds | eyegame.py:63 | the loop starts from the pool and ends at the pass result |
| EyeGame.PopMissStep | eyegame.py:63-65 | a balloon not containing the point stays where it is |
| EyeGame.FaceHits | eyegame.py:58-68 | the hit passes of all faces keep exactly five balloons within the pool bounds |
| EyeGame.TickKeepsPool | eyegame.py:58-76 | a whole frame, hits then movement, keeps five balloons within the pool bounds |
| EyeGame.InitialPool | eyegame.py:16 | five balloons, x in [100,700], y 600 |
| EyeGame.GameTick | eyegame.py:48-88 | one frame keeps the pool, never lowers the score, and keeps running unless the window is closed |
| EyeGame.Play | eyegame.py:47-52 | the game loop keeps the pool and plays at most one frame per read |
| EyeGame.PlayFacts | eyegame.py:47-88 | over the whole loop the score never drops, only successful reads are played, a stopped game plays nothing, and a loop still running ended on a failed read |
| EyeGame.BalloonGame.constructor | eyegame.py:16-27 | start-up pool of five balloons, score 0, running |
| EyeGame.BalloonGame.PopHits | eyegame.py:63-68 | the in-place hit loop over the copy leaves the pass result and adds one point per hit |
| EyeGame.BalloonGame.RiseBalloons | eyegame.py:71-76 | the in-place movement loop leaves `RiseAll` of the old pool |
| EyeGame.BalloonGame.PopAllFaces | eyegame.py:58-68 | one hit pass per detected face, in order |
| EyeGame.BalloonGame.Tick | eyegame.py:58-85 | the frame leaves exactly `GameTick` of the old state |
| EyeGame.BalloonGame.Run | eyegame.py:47-52 | `while running` leaves exactly `Play` of the old state and plays its frame count |
| GestureGame.DetectHandMovement | gesturegame.py:45-53 | the character moves by -20 when the index tip is in the left half of the frame, by +20 otherwise |
| GestureGame.CharAfterHands | gesturegame.py:85 | after the hands and the clamp the character is in [0,680] |
| GestureGame.MoveForHands | gesturegame.py:79-82 | one `detect_hand_movement` per detected hand, in order, before the clamp; `CharAfterHands` clamps it |
| GestureGame.Fall | gesturegame.py:89 | `asteroid[1] += 8`: y grows by 8, x unchanged |
| GestureGame.OffScreen | gesturegame.py:98 | an asteroid is off the bottom when y > 600 (strict) |
| GestureGame.Collides | gesturegame.py:93 | the collision window: y > 480 and char_x < x < char_x + 120, all strict |
| GestureGame.Survivors | gesturegame.py:88-100 | the moved asteroids still on the board, in order; see `SurvivorsOnScreen` and `SurvivorsFell` |
| GestureGame.Fallen | gesturegame.py:98-100 | how many moved asteroids fall off the bottom; see `SurvivorsOnScreen` |
| GestureGame.Collided | gesturegame.py:93-95 | whether some moved asteroid hits the character; see `CollidedIff` |
| GestureGame.SurvivorsOnScreen | gesturegame.py:98-100 | survivors and fallen asteroids account for all; no survivor is below 600 |
| GestureGame.SurvivorsFell | gesturegame.py:88-100 | every asteroid moves down exactly 8 and is kept unless that takes it off the bottom: every survivor is an input moved 8, every input still on screen after moving is a survivor, with the same multiplicity as in the input |
| GestureGame.CollidedIff | gesturegame.py:93-95 | a collision happens iff some moved asteroid has y > 480 and char_x < x < char_x + 120 |
| GestureGame.PrefixStep | gesturegame.py:88-100 | one more asteroid processed extends survivors, score and collision by that asteroid alone |
| GestureGame.LiveAt | gesturegame.py:88 | the asteroid being processed sits right after the survivors so far |
| GestureGame.MoveInPlace | gesturegame.py:89 | an asteroid staying on screen is moved in place |
| GestureGame.MoveAndRemove | gesturegame.py:98-99 | removing a fallen asteroid by value deletes exactly that asteroid |
| GestureGame.DodgeTick | gesturegame.py:69-120 | one frame of the game; its properties are in `TickFacts` |
| GestureGame.TickFacts | gesturegame.py:69-120 | one frame keeps the character and asteroids on the board; the score grows by the fallen count; running iff it ran, no close and no collision; the new asteroids are the survivors plus `Asteroid(spawnX, 0)` exactly when the roll is below 0.05, so at most one spawn: at most the old count minus the fallen ones plus one |
| GestureGame.DodgeRun | gesturegame.py:67-123 | `while running` over a finite run of frames; its properties are in `StoppedStaysStopped` and `RunKeepsState` |
| GestureGame.StoppedStaysStopped | gesturegame.py:67-69 | once running is false nothing changes any more |
| GestureGame.RunKeepsState | gesturegame.py:69-123 | over the whole loop the board stays well formed, the score never drops, and running never comes back |
| GestureGame.DodgeGame.constructor | gesturegame.py:25-38 | character at 340, no asteroids, score 0, running |
| GestureGame.DodgeGame.SpawnAsteroid | gesturegame.py:40-43 | one asteroid appended at the drawn x and y 0 |
| GestureGame.DodgeGame.MoveCharacter | gesturegame.py:45-53 | one hand's movement of the global `char_x` |
| GestureGame.DodgeGame.HandleHands | gesturegame.py:79-85 | every hand in order, then the clamp |
| GestureGame.DodgeGame.StepAsteroid | gesturegame.py:89-100 | one asteroid: moved, collision tested, removed and scored if off the bottom |
| GestureGame.DodgeGame.UpdateAsteroids | gesturegame.py:88-100 | the loop leaves the survivors, adds the fallen count, and clears running on any collision, processing the rest anyway |
| GestureGame.DodgeGame.Tick | gesturegame.py:69-120 | the frame leaves exactly `DodgeTick` of the old state |
| GestureGame.DodgeGame.Run | gesturegame.py:69-120 | `while running` leaves exactly `DodgeRun` of the old state |
| Control.Lookup | main.py:50-68 | a name selects a program iff it is one of the four program names |
| Control.Status | main.py:43-73 | 200 for success, 500 for a raising hook, 400 for the rest |
| Control.StartProgram | main.py:31-73 | `start_program` as a transition of the recorded name with its reply; its properties are in `StartWithoutName`, `StartRecordsName` and `MissingHookSucceeds` |
| Control.TerminateProgram | main.py:75-115 | `terminate_program` as a transition of the recorded name with its reply; its properties are in `TerminateMismatch`, `TerminateOutcomes` and `UnknownNameSticks` |
| Control.StartWithoutName | main.py:41-43 | a missing or empty name returns 400 and changes nothing |
| Control.StartRecordsName | main.py:46-73 | any non-empty name is recorded, overwriting the active one: 400 iff unknown, 500 iff known and the hook raises, else 200 |
| Control.TerminateMismatch | main.py:86-87 | a name other than the recorded one returns 400 and changes nothing |
| Control.TerminateOutcomes | main.py:86-115 | 200 iff matching, known and the hook does not raise, and then the record is cleared; 500 iff the hook raises; otherwise the record stays |
| Control.MissingHookSucceeds | main.py:52-53 | a module without the hook still reports success on start and on terminate |
| Control.StartThenTerminate | main.py:31-115 | starting and then terminating a known program returns 200 twice and leaves no active program |
| Control.UnknownNameSticks | main.py:86-109 | a recorded unknown name can never be cleared by a terminate request |
| Control.Serve | main.py:31-115 | the requests handled one at a time, one reply each; where the held name can come from is stated in `ActiveCameFromStart` |
| Control.ActiveCameFromStart | main.py:46 | any name the surface holds was there at the start or came from a start request naming it, and is non-empty |
| Control.ControlSurface.constructor | main.py:24 | no active program at start-up |
| Control.ControlSurface.Start | main.py:31-73 | leaves exactly the record and reply of `StartProgram` |
| Control.ControlSurface.Terminate | main.py:75-115 | leaves exactly the record and reply of `TerminateProgram` |
| EyeMouse.ScreenCoord | eye.py:37-43 | one pointer axis: the landmark's pixel `int(u * frame_size)` scaled by screen_size / frame_size |
| EyeMouse.PointerTarget | eye.py:36-44 | the `moveTo` target: `ScreenCoord` of landmark 475 (the second of 474-477) on both axes |
| EyeMouse.Blink | eye.py:52 | a blink: landmark 145's y minus landmark 159's y is below 0.007 (strict) |
| EyeMouse.PointerOnScreen | eye.py:36-44 | an iris at normalised coordinates in [0,1] maps to a point on the screen |
| EyeMouse.AxisOnScreen | eye.py:37-43 | one axis of the mapping stays in [0, screen size] |
| EyeMouse.Frames | eye.py:21-24 | the frames read before the first failure, in order |
| EyeMouse.FrameEffects | eye.py:33-66 | one frame's effects in order; its properties are in `NoFaceNoAction`, `FaceFrame`, `OneChunkPerFrame` and `FrameClicks` |
| EyeMouse.Stream | eye.py:21-66 | the effects of the whole generator loop up to the first failed read; its properties are in `ChunkPerFrame`, `StopsAtFailure`, `ClickSpacing` and `ClicksAreBlinks` |
| EyeMouse.HandleFrame | eye.py:33-66 | one frame's effects are exactly `FrameEffects` |
| EyeMouse.GenerateFrames | eye.py:15-66 | the generator loop's effects are exactly `Stream` |
| EyeMouse.OneChunkPerFrame | eye.py:58-64 | each frame yields exactly one chunk |
| EyeMouse.ChunkPerFrame | eye.py:21-64 | the stream yields exactly one chunk per successfully read frame |
| EyeMouse.StopsAtFailure | eye.py:21-24 | nothing after the first failed read contributes to the stream |
| EyeMouse.NoFaceNoAction | eye.py:33 | a frame without a face produces no pointer move and no click |
| EyeMouse.FaceFrame | eye.py:33-55 | with a face: exactly one pointer move, first, to the scaled iris point; a click iff the eyelid gap is below 0.007, right after the move; at most one click |
| EyeMouse.StreamClickPaused | eye.py:52-55 | every click in the stream is immediately followed by the one-second sleep |
| EyeMouse.ClickSpacing | eye.py:52-66 | any two clicks are at least 1 s apart on a clock advanced only by the sleeps |
| EyeMouse.FrameClicks | eye.py:52-55 | a frame clicks once if its eyelid gap is below 0.007 and not at all otherwise |
| EyeMouse.ClicksAreBlinks | eye.py:21-55 | the stream holds exactly one click per handled frame whose eyelid gap is below 0.007, with no debounce between such frames |
| EyeMouse.GapSequenceClicksTwice | eye.py:21-55 | any five frames open, open, blinking, blinking, open give exactly two clicks |
| EyeMouse.GapFramesClickTwice | eye.py:21-55 | five frames with eyelid gaps 0.01, 0.01, 0.005, 0.005, 0.01 give exactly two clicks (the frames are built by the helper `GapFrame`) |
| Hand1.TargetX | hand1.py:37-38 | a fingertip x in [0,1] targets a pixel in [0,800] |
| Hand1.TrackHands | hand1.py:30-42 | one move per hand, all at the unchanged y with duration 0.05; the first move is one smoothing step toward its target; the last move is the new x |
| Hand1.EachMoveSmoothed | hand1.py:38-42 | each move's x is one smoothing step from the previous move toward its own hand's target |
| Hand1.MovesStayInBand | hand1.py:38-42 | if the start and all targets lie in a band, every move does too |
| Hand1.HeldHandSettles | hand1.py:39 | a hand held still for n frames leaves the first gap shrunk n times by 0.7, that is 0.7^n of it |
| Hand1.TrackingLoop | hand1.py:44-52 | the loop handles at most one frame per read, never touches y, and keeps running equal to "camera not released" |
| Hand1.LoopMoves | hand1.py:44-52 | one move per hand of every handled frame, all at the unchanged y; only successful reads are handled |
| Hand1.TerminateEndsLoop | hand1.py:44-66 | a terminate during the sleep after frame k means no frame after k is handled |
| Hand1.RestartAfterTerminate | hand1.py:54-66 | after terminate the camera stays released, so a restarted loop stops at its first read and moves nothing |
| Hand1.Tracker.constructor | hand1.py:17-22 | start-up: the pointer position, running, camera open |
| Hand1.Tracker.StartTracking | hand1.py:54-59 | sets running and nothing else |
| Hand1.Tracker.TerminateTracking | hand1.py:61-66 | clears running and releases the camera |
| Hand1.Tracker.HandleHandTracking | hand1.py:30-42 | the per-hand loop leaves exactly the x and moves of `TrackHands` |
| Hand1.Tracker.RunTrackingLoop | hand1.py:44-52 | the loop leaves exactly the state, moves and frame count of `TrackingLoop` |

## Left out

- Camera capture, landmark inference, mirroring, colour conversion, drawing, windows and all pygame rendering (fonts, images, `show_game_over` with its 3 s delay). These are foreign libraries. The model receives the landmarks and frame sizes they would produce.
- The effects of pyautogui and the screenshot file. They are emitted as values. The screenshot's name uses its own `time.time()` call in the source; the model reuses the hand's clock reading.
- Floating-point rounding. Coordinates are exact reals.
- The clock and the random draws. They are inputs, with the ranges `random.randint` and `random.random` guarantee stated as preconditions.
- asyncio scheduling, `create_task` and `clock.tick(30)`. Sleeps appear only as effects (eye mouse) or as the one point where a terminate can interleave (hand1 loop). Two tracking loops started side by side are not modelled.
- The camera loops are unbounded in the source. The model runs them over a finite sequence of reads, so running out of input also ends a run.
- Importing a module from `main.py` runs its top-level code. For `hand.py`, `eyegame.py` and `gesturegame.py` that is the whole capture or game loop. The hooks are modelled only by outcome: missing, returns, or raises. None of eye.py, eyegame.py, hand.py and gesturegame.py defines the `start_*` or `terminate_*` hook that `main.py` probes with `hasattr`. So for this source every hook is missing and the returns outcome never happens.
- The unchecked `cap.read()` in the dodge game. A failed read there would crash in `cv2.flip`; the model assumes every read succeeds.
- The `draw_landmarks(frame, ...)` call in hand1's hand handler. It names a variable that is not in scope; it is rendering and is left out rather than modelled as an error.
- hand1's `DEBOUNCE_TIME` and `last_action_time`. They are never read.
- Malformed request bodies. An absent or non-JSON body makes `await request.json()` raise, and a JSON body that is not an object fails at `.get`. The framework then answers 500 and `active_program` is unchanged. Only an absent or string "program" field is modelled; an absent field is `None` and gets 400. A "program" field that is not a string is left out too.
- The `print` calls in hand.py's action branches and the `logging` calls in main.py and hand1.py. They are console output and change no state.
- The web socket simulation, health endpoint, CORS and server setup, the HTML page, the multipart JPEG framing, and the whole of `run.py`. These are transport and interface scaffolding.
