/** Calls of the adapter: dispatch, refusals, latches and kept results
    (flyto_robotics/arm_adapter.py). */
module ArmCalls {
  import opened Wrappers
  import opened ArmProfile
  import opened ArmBus
  import opened ArmMotion
  import opened ArmGrip

  /** A call's argument: a finite number, or anything else. */
  datatype Argument = Number(x: real) | NotANumber

  datatype Capability = ReadsState | MovesJoints | Grasps | Releases | Halts | Unknown

  datatype Request = Request(callId: string, capability: Capability, arguments: map<string, Argument>)

  /** The adapter between calls: the arm and the result kept for each call id. */
  datatype Adapter<S> = Adapter(arm: Arm<S>, results: map<string, CallResult>)

  function ArgumentOf(name: string): string {
    name + ARGUMENT_SUFFIX
  }

  function Arguments(p: ArmProfile): set<string> {
    set n | n in p.Names() :: ArgumentOf(n)
  }

  predicate InLimit(limit: JointLimit, a: Argument) {
    a.Number? && limit.minRad <= a.x <= limit.maxRad
  }

  /** One number within limits for each declared joint and nothing else, or `None`. */
  function Targets(p: ArmProfile, arguments: map<string, Argument>): (r: Option<Pose>)
    ensures r.Some? ==> r.value.Keys == p.Names() && p.InLimits(r.value)
  {
    if arguments.Keys == Arguments(p) && (forall n :: n in p.Names() ==> InLimit(p.Limit(n), arguments[ArgumentOf(n)]))
    then Some(map n | n in p.Names() :: arguments[ArgumentOf(n)].x)
    else None
  }

  function ReleaseTarget(g: GripperProfile, arguments: map<string, Argument>): (r: Option<real>)
    ensures r.Some? ==> g.InReleaseRange(r.value)
  {
    if arguments.Keys == {RELEASE_ARGUMENT} && arguments[RELEASE_ARGUMENT].Number?
       && g.InReleaseRange(arguments[RELEASE_ARGUMENT].x)
    then Some(arguments[RELEASE_ARGUMENT].x) else None
  }

  /** Limits nobody accepted, or a latched fault. */
  predicate MotionBlocked<S>(p: ArmProfile, a: Arm<S>) {
    !p.limitsAccepted || a.stopUnconfirmed || a.stateUnknown
  }

  /** What a motion ran into, as the result its caller gets and the latch it leaves. */
  function Guarded<S>(callId: string, a: Arm<S>, ran: Result<CallResult, Fault>): (Arm<S>, CallResult) {
    match ran
    case Err(fault) =>
      (Logged(a.(stateUnknown := true), MotionEnded(callId)),
       Reported(Failed, if fault.BusFault? then ConnectionLost else StateIncomplete))
    case Ok(result) => (if result.outcome.Refused? then a else Logged(a, MotionEnded(callId)), result)
  }

  function Move<S>(p: ArmProfile, d: Driver<S>, a: Arm<S>, request: Request): (Arm<S>, CallResult)
    requires 0.0 < p.period
  {
    var targets := Targets(p, request.arguments);
    if targets.None? || MotionBlocked(p, a) then (a, Reported(Refused, NotStated))
    else
      var (after, ran) := RunMove(p, d, a, targets.value);
      Guarded(request.callId, after, ran)
  }

  function GripTarget(g: GripperProfile, request: Request): Option<real> {
    if request.capability.Grasps? then (if request.arguments == map[] then Some(g.closedRad) else None)
    else ReleaseTarget(g, request.arguments)
  }

  function Grips<S>(p: ArmProfile, d: Driver<S>, a: Arm<S>, request: Request): (Arm<S>, CallResult)
    requires p.Valid()
  {
    if p.gripper.None? then (a, Reported(Refused, NotStated))
    else
      var g := p.gripper.value;
      var target := GripTarget(g, request);
      if target.None? || MotionBlocked(p, a) then (a, Reported(Refused, NotStated))
      else
        var (after, ran) := RunGrip(p, g, d, a, request.capability.Grasps?, target.value);
        Guarded(request.callId, after, ran)
  }

  function Dispatch<S>(p: ArmProfile, d: Driver<S>, a: Arm<S>, request: Request): (Arm<S>, CallResult)
    requires p.Valid() && !request.capability.Halts?
  {
    match request.capability
    case ReadsState => if request.arguments == map[] then ReadState(p, d, a) else (a, Reported(Refused, NotStated))
    case MovesJoints => Move(p, d, a, request)
    case Grasps => Grips(p, d, a, request)
    case Releases => Grips(p, d, a, request)
    case Unknown => (a, Reported(Refused, NotStated))
  }

  /** A stop always runs; any other call id gets its first result again, never a
      second effect. */
  function Invoke<S>(p: ArmProfile, d: Driver<S>, w: Adapter<S>, request: Request): (Adapter<S>, CallResult)
    requires p.Valid()
  {
    if request.capability.Halts? then
      var (after, report) := Stop(p, d, w.arm);
      (w.(arm := after), StopResult(report))
    else if request.callId in w.results then (w, w.results[request.callId])
    else
      var (after, result) := Dispatch(p, d, w.arm, request);
      (Adapter(after, if result.outcome.Refused? then w.results else w.results[request.callId := result]), result)
  }
}
