/** Grasp and release: one joint's setpoint loop, and the hold or the opening that
    read-back has to confirm (flyto_robotics/arm_adapter.py). */
module ArmGrip {
  import opened Wrappers
  import opened ArmProfile
  import opened ArmBus
  import opened ArmMotion

  datatype Grip<S> = Grip(arm: Arm<S>, setpoint: real, reference: real, progressAt: real, position: real)

  datatype GripEnding =
    | GripCancelled | GripOutOfTime | ReachedTarget | GripStalled | TooClosed | Contact | GripBroken(fault: Fault)

  function GripStep(p: ArmProfile, g: GripperProfile): real {
    g.maxSpeed * p.period
  }

  predicate JawsStopped<S>(p: ArmProfile, g: GripperProfile, l: Grip<S>) {
    Abs(l.setpoint - l.position) > g.tolerance && l.arm.now - l.progressAt >= p.stallWindow
  }

  /** What the reading means: the target reached, jaws stopped by something, or
      jaws stopped by nothing that counts as an object. */
  function JudgeGrip<S>(p: ArmProfile, g: GripperProfile, grasp: bool, start: real, target: real, l: Grip<S>)
    : (ending: Option<GripEnding>)
    ensures ending.Some? ==> !ending.value.GripCancelled? && !ending.value.GripOutOfTime? && !ending.value.GripBroken?
  {
    if l.setpoint == target && Abs(l.position - target) <= g.tolerance then Some(ReachedTarget)
    else if !JawsStopped(p, g, l) then None
    else if !grasp || Abs(l.position - start) < p.stallMinProgress then Some(GripStalled)
    else if g.Gap(l.position) < g.minGap then Some(TooClosed)
    else Some(Contact)
  }

  function GripPass<S>(p: ArmProfile, g: GripperProfile, d: Driver<S>, grasp: bool, start: real, target: real,
                       deadline: real, l: Grip<S>): (r: (Grip<S>, Option<GripEnding>))
    requires g.joint in p.Names()
    ensures r.1.None? ==> l.arm.now <= deadline && r.0.arm.now == l.arm.now + p.period
  {
    if d.stopRequested(l.arm.bus, AtTop) then (l, Some(GripCancelled))
    else if l.arm.now > deadline then (l, Some(GripOutOfTime))
    else
      var setpoint := Toward(l.setpoint, target, GripStep(p, g));
      if d.stopRequested(l.arm.bus, BeforeWrite) then (l.(setpoint := setpoint), Some(GripCancelled)) else
      var (a1, wrote) := WriteGoals(d, l.arm, ByMotion, map[g.joint := setpoint]);
      if wrote.Err? then (l.(arm := a1, setpoint := setpoint), Some(GripBroken(wrote.error)))
      else
        var (a2, pose) := ReadPose(p, d, Slept(a1, p.period));
        if pose.Err? then (l.(arm := a2, setpoint := setpoint), Some(GripBroken(pose.error)))
        else
          var position := pose.value[g.joint];
          var moved := Progressed(p, position, l.reference);
          var read_ := Grip(a2, setpoint, if moved then position else l.reference,
                            if moved then a2.now else l.progressAt, position);
          (read_, JudgeGrip(p, g, grasp, start, target, read_))
  }

  function GripLooped<S>(p: ArmProfile, g: GripperProfile, d: Driver<S>, grasp: bool, start: real, target: real,
                         deadline: real, l: Grip<S>): (Grip<S>, GripEnding)
    requires 0.0 < p.period && g.joint in p.Names()
    decreases PassesLeft(l.arm.now, deadline, p.period)
  {
    var (next, ending) := GripPass(p, g, d, grasp, start, target, deadline, l);
    if ending.Some? then (next, ending.value)
    else
      OnePassLess(l.arm.now, deadline, p.period);
      GripLooped(p, g, d, grasp, start, target, deadline, next)
  }

  /** A jaw position in its frame; a joint named like the frame key replaces it. */
  function JawPhase(joint: string, position: real): Phase {
    map[FRAME_FIELD := InFrame] + map[joint := Num(position)]
  }

  /** The held field as one or zero and the joint's field as the jaw position. A map
      has one value for a key, so a joint called `held` leaves only the position. */
  function HeldPhase(joint: string, held: real, position: real): Phase {
    map[HELD_FIELD := Num(held)] + map[joint := Num(position)]
  }

  function JawPhases(joint: string, before: real, after: real): map<PhaseName, Phase> {
    map[Before := JawPhase(joint, before), After := JawPhase(joint, after)]
  }

  function GripResult(outcome: Outcome, reason: Reason, joint: string, before: real, after: real, held: Option<bool>,
                      stop: Option<StopReport>): CallResult
  {
    CallResult(outcome, reason, map[GripperPosition := JawPhases(joint, before, after)], held, stop)
  }

  /** `count` samples of the jaws: where they are and the largest drift. */
  function SampledJaws<S>(p: ArmProfile, joint: string, d: Driver<S>, a: Arm<S>, reference: real, count: nat, last: real,
                          drift: real): (Arm<S>, Result<(real, real), Fault>)
    requires joint in p.Names()
    decreases count
  {
    if count == 0 then (a, Ok((last, drift)))
    else
      var (after, pose) := ReadPose(p, d, Slept(a, p.period));
      if pose.Err? then (after, Err(pose.error))
      else
        var position := pose.value[joint];
        SampledJaws(p, joint, d, after, reference, count - 1, position, Max(drift, Abs(position - reference)))
  }

  /** The end of a grasp that made contact: samples over the hold decide between a
      completed result and a failed one that stops the arm. */
  function ConfirmHold<S>(p: ArmProfile, g: GripperProfile, d: Driver<S>, a: Arm<S>, start: real, contact: real)
    : (Arm<S>, Result<CallResult, Fault>)
    requires g.joint in p.Names()
  {
    var (a1, sampled) := SampledJaws(p, g.joint, d, a, contact, g.holdSamples, contact, 0.0);
    if sampled.Err? then (a1, Err(sampled.error))
    else
      var (position, drift) := sampled.value;
      var held := drift <= g.holdMaxDrift && g.Gap(position) >= g.minGap;
      var jaws := JawPhases(g.joint, start, contact)[PhaseName.Settled := JawPhase(g.joint, position)];
      var observations := map[GripperPosition := jaws,
                              HeldObject := map[Before := HeldPhase(g.joint, 0.0, contact),
                                                After := HeldPhase(g.joint, if held then 1.0 else 0.0, position)]];
      if held then (a1, Ok(CallResult(Completed, ObjectHeld, observations, Some(true), None)))
      else
        var (a2, stop) := Stop(p, d, a1);
        (a2, Ok(CallResult(Failed, Slipping, observations, Some(false), Some(stop))))
  }

  /** The end of a release that reached its target: the last sample and the drift of
      all of them decide, and nothing is stopped either way. */
  function ConfirmOpen<S>(p: ArmProfile, g: GripperProfile, d: Driver<S>, a: Arm<S>, start: real, arrived: real, target: real)
    : (Arm<S>, Result<CallResult, Fault>)
    requires g.joint in p.Names()
  {
    var (a1, sampled) := SampledJaws(p, g.joint, d, a, arrived, g.holdSamples, arrived, 0.0);
    if sampled.Err? then (a1, Err(sampled.error))
    else
      var (position, drift) := sampled.value;
      var stays := drift <= g.holdMaxDrift && Abs(position - target) <= g.tolerance;
      var jaws := JawPhases(g.joint, start, arrived)[PhaseName.Settled := JawPhase(g.joint, position)];
      (a1, Ok(CallResult(if stays then Completed else Failed, if stays then Released else NotOpen,
                         map[GripperPosition := jaws], if stays then Some(false) else None, None)))
  }

  function EndGripWithStop<S>(p: ArmProfile, g: GripperProfile, d: Driver<S>, a: Arm<S>, outcome: Outcome, reason: Reason,
                              start: real, position: real, grasp: bool): (Arm<S>, Result<CallResult, Fault>)
  {
    var (a1, stop) := Stop(p, d, a);
    (a1, Ok(GripResult(outcome, reason, g.joint, start, position, if grasp then Some(false) else None, Some(stop))))
  }

  function EndGrip<S>(p: ArmProfile, g: GripperProfile, d: Driver<S>, grasp: bool, start: real, target: real, l: Grip<S>,
                      ending: GripEnding): (Arm<S>, Result<CallResult, Fault>)
    requires g.joint in p.Names()
  {
    match ending
    case GripCancelled => (l.arm, Ok(GripResult(Cancelled, ReasonCancelled, g.joint, start, l.position, None, None)))
    case GripOutOfTime => EndGripWithStop(p, g, d, l.arm, TimedOut, Timeout, start, l.position, grasp)
    case ReachedTarget =>
      if grasp then (l.arm, Ok(GripResult(Failed, NoObject, g.joint, start, l.position, Some(false), None)))
      else ConfirmOpen(p, g, d, l.arm, start, l.position, target)
    case GripStalled => EndGripWithStop(p, g, d, l.arm, Failed, Stalled, start, l.position, grasp)
    case TooClosed => EndGripWithStop(p, g, d, l.arm, Failed, NoObject, start, l.position, grasp)
    case Contact => ConfirmHold(p, g, d, l.arm, start, l.position)
    case GripBroken(fault) => (l.arm, Err(fault))
  }

  /** A grasp starts from jaws at least as open as a release leaves them. */
  predicate OpenEnough(g: GripperProfile, position: real) {
    g.Gap(position) >= g.Gap(g.releaseRad) - g.tolerance
  }

  /** Whether this call may start from a pose. */
  function MayStart(g: GripperProfile, grasp: bool): Pose -> bool {
    pose => !grasp || (g.joint in pose && OpenEnough(g, pose[g.joint]))
  }

  function RunGrip<S>(p: ArmProfile, g: GripperProfile, d: Driver<S>, a: Arm<S>, grasp: bool, target: real)
    : (Arm<S>, Result<CallResult, Fault>)
    requires 0.0 < p.period && g.joint in p.Names()
  {
    var (a1, ready) := Prepare(p, d, a, MayStart(g, grasp));
    if ready.Err? then (a1, Err(ready.error))
    else if ready.value.NotReady? then (a1, Ok(ready.value.result))
    else
      var start := ready.value.before[g.joint];
      var (last, ending) := GripLooped(p, g, d, grasp, start, target, a1.now + p.moveDeadline,
                                       Grip(a1, start, start, a1.now, start));
      EndGrip(p, g, d, grasp, start, target, last, ending)
  }
}
