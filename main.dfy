/** The program control surface: start and terminate requests over the one global
    active program name, answered with status 200, 400 or 500. */
module Control {
  import opened Common

  /** The four programs the dispatch knows by name. */
  datatype Program = EyeTrackingControl | EyeTrackingGame | HandTrackingControl | HandTrackingGame

  function Name(p: Program): string
  {
    match p
    case EyeTrackingControl => "eye_tracking_control"
    case EyeTrackingGame => "eye_tracking_game"
    case HandTrackingControl => "hand_tracking_control"
    case HandTrackingGame => "hand_tracking_game"
  }

  /** The if/elif dispatch on the name: which program a name selects, if any. */
  function Lookup(name: string): (p: Option<Program>)
    ensures p.Some? ==> Name(p.value) == name
    ensures forall q: Program :: Name(q) == name ==> p == Some(q)
  {
    if name == "eye_tracking_control" then Some(EyeTrackingControl)
    else if name == "eye_tracking_game" then Some(EyeTrackingGame)
    else if name == "hand_tracking_control" then Some(HandTrackingControl)
    else if name == "hand_tracking_game" then Some(HandTrackingGame)
    else None
  }

  /** What happens when the selected module's start or terminate hook is reached:
      the module lacks it (hasattr is false), it returns, or importing or calling it
      raises. */
  datatype Hook = Missing | Returns | Raises(message: string)

  /** The HTTP answer. */
  datatype Reply = Started(program: string) | Terminated(program: string)
                 | NotSpecified | UnknownProgram | Mismatch
                 | StartFailed(message: string) | TerminateFailed(message: string)

  function Status(r: Reply): (code: int)
    ensures code == 200 <==> r.Started? || r.Terminated?
    ensures code == 500 <==> r.StartFailed? || r.TerminateFailed?
    ensures code == 200 || code == 400 || code == 500
  {
    match r
    case Started(_) => 200
    case Terminated(_) => 200
    case NotSpecified => 400
    case UnknownProgram => 400
    case Mismatch => 400
    case StartFailed(_) => 500
    case TerminateFailed(_) => 500
  }

  /** start_program: the name is recorded before it is validated. `program` is the
      request body's "program" field, None when absent. */
  function StartProgram(active: Option<string>, program: Option<string>, hook: Hook): (r: (Option<string>, Reply))
  {
    if program.None? || program.value == "" then (active, NotSpecified)
    else
      var name := program.value;
      if Lookup(name).None? then (Some(name), UnknownProgram)
      else if hook.Raises? then (Some(name), StartFailed("Error starting program: " + hook.message))
      else (Some(name), Started(name))
  }

  /** terminate_program: only the recorded name may be terminated, and only a known
      one clears the record. */
  function TerminateProgram(active: Option<string>, program: Option<string>, hook: Hook): (r: (Option<string>, Reply))
  {
    if active != program then (active, Mismatch)
    else if program.None? || Lookup(program.value).None? then (active, UnknownProgram)
    else if hook.Raises? then (active, TerminateFailed("Error terminating program: " + hook.message))
    else (None, Terminated(program.value))
  }

  /** A missing or empty name is rejected with 400 and changes nothing. */
  lemma StartWithoutName(active: Option<string>, program: Option<string>, hook: Hook)
    requires program.None? || program == Some("")
    ensures StartProgram(active, program, hook) == (active, NotSpecified)
    ensures Status(StartProgram(active, program, hook).1) == 400
  {
  }

  /** Any non-empty name is recorded, whatever happens next: an unknown one with 400, a
      raising hook with 500, otherwise 200. A program already active is overwritten,
      never rejected. */
  lemma StartRecordsName(active: Option<string>, name: string, hook: Hook)
    requires name != ""
    ensures StartProgram(active, Some(name), hook).0 == Some(name)
    ensures Status(StartProgram(active, Some(name), hook).1) == 400 <==> Lookup(name).None?
    ensures Status(StartProgram(active, Some(name), hook).1) == 500 <==> Lookup(name).Some? && hook.Raises?
    ensures Status(StartProgram(active, Some(name), hook).1) == 200 <==> Lookup(name).Some? && !hook.Raises?
  {
  }

  /** A terminate for a name other than the recorded one is rejected and changes nothing. */
  lemma TerminateMismatch(active: Option<string>, program: Option<string>, hook: Hook)
    requires active != program
    ensures TerminateProgram(active, program, hook) == (active, Mismatch)
  {
  }

  /** Only a matching, known name whose hook does not raise clears the record; a
      raising hook gives 500; every other outcome, None matching an absent name
      included, leaves the record as it was. */
  lemma TerminateOutcomes(active: Option<string>, program: Option<string>, hook: Hook)
    ensures var (after, reply) := TerminateProgram(active, program, hook);
            && (Status(reply) == 200 <==>
                  active == program && program.Some? && Lookup(program.value).Some? && !hook.Raises?)
            && (Status(reply) == 500 <==>
                  active == program && program.Some? && Lookup(program.value).Some? && hook.Raises?)
            && (Status(reply) == 200 ==> after.None?)
            && (Status(reply) != 200 ==> after == active)
  {
  }

  /** A hook that is missing still reports success. */
  lemma MissingHookSucceeds(active: Option<string>, p: Program)
    ensures StartProgram(active, Some(Name(p)), Missing) == (Some(Name(p)), Started(Name(p)))
    ensures TerminateProgram(Some(Name(p)), Some(Name(p)), Missing) == (None, Terminated(Name(p)))
  {
  }

  /** Starting a known program and then terminating it returns to no active program. */
  lemma StartThenTerminate(active: Option<string>, p: Program, startHook: Hook, stopHook: Hook)
    requires !startHook.Raises? && !stopHook.Raises?
    ensures var (mid, r1) := StartProgram(active, Some(Name(p)), startHook);
            var (after, r2) := TerminateProgram(mid, Some(Name(p)), stopHook);
            Status(r1) == 200 && Status(r2) == 200 && after.None?
  {
  }

  /** An unknown name, once recorded, cannot be cleared by any terminate request:
      only a later start replaces it. */
  lemma UnknownNameSticks(name: string, program: Option<string>, hook: Hook)
    requires Lookup(name).None?
    ensures TerminateProgram(Some(name), program, hook).0 == Some(name)
    ensures Status(TerminateProgram(Some(name), program, hook).1) == 400
  {
  }

  datatype Request = StartRequest(program: Option<string>, hook: Hook)
                   | TerminateRequest(program: Option<string>, hook: Hook)

  /** The control surface serving a sequence of requests, one at a time. */
  function Serve(active: Option<string>, reqs: seq<Request>): (r: (Option<string>, seq<Reply>))
    ensures |r.1| == |reqs|
    decreases |reqs|
  {
    if reqs == [] then (active, [])
    else
      var (next, reply) := match reqs[0]
        case StartRequest(p, h) => StartProgram(active, p, h)
        case TerminateRequest(p, h) => TerminateProgram(active, p, h);
      var (final, replies) := Serve(next, reqs[1..]);
      (final, [reply] + replies)
  }

  /** Every name the surface holds was there from the start or came from a start
      request naming it; it is never empty unless it started empty. */
  lemma {:induction false} ActiveCameFromStart(active: Option<string>, reqs: seq<Request>)
    ensures var final := Serve(active, reqs).0;
            final.Some? ==>
              final == active ||
              (final.value != "" &&
               exists k | 0 <= k < |reqs| :: reqs[k].StartRequest? && reqs[k].program == final)
    decreases |reqs|
  {
    if reqs != [] {
      var next := match reqs[0]
        case StartRequest(p, h) => StartProgram(active, p, h).0
        case TerminateRequest(p, h) => TerminateProgram(active, p, h).0;
      ActiveCameFromStart(next, reqs[1..]);
      var final := Serve(active, reqs).0;
      assert final == Serve(next, reqs[1..]).0;
      if final.Some? && final != active {
        if final == next {
          assert reqs[0].StartRequest? && reqs[0].program == final;
        } else {
          var k :| 0 <= k < |reqs[1..]| && reqs[1..][k].StartRequest? && reqs[1..][k].program == final;
          assert reqs[k + 1] == reqs[1..][k];
        }
      }
    }
  }

  class ControlSurface {
    var activeProgram: Option<string>

    constructor ()
      ensures activeProgram.None?
    {
      activeProgram := None;
    }

    /** POST /start. */
    method Start(program: Option<string>, hook: Hook) returns (reply: Reply)
      modifies this
      ensures (activeProgram, reply) == StartProgram(old(activeProgram), program, hook)
    {
      if program.None? || program.value == "" {
        return NotSpecified;
      }
      var name := program.value;
      activeProgram := Some(name);
      var selected := Lookup(name);
      if selected.None? {
        return UnknownProgram;
      }
      match hook {
        case Raises(e) =>
          return StartFailed("Error starting program: " + e);
        case Missing =>
        case Returns =>
      }
      return Started(name);
    }

    /** POST /terminate. */
    method Terminate(program: Option<string>, hook: Hook) returns (reply: Reply)
      modifies this
      ensures (activeProgram, reply) == TerminateProgram(old(activeProgram), program, hook)
    {
      if activeProgram != program {
        return Mismatch;
      }
      var selected := if program.None? then None else Lookup(program.value);
      if selected.None? {
        return UnknownProgram;
      }
      match hook {
        case Raises(e) =>
          return TerminateFailed("Error terminating program: " + e);
        case Missing =>
        case Returns =>
      }
      activeProgram := None;
      return Terminated(program.value);
    }
  }
}
