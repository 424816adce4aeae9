/** Where the setpoints of a motion go, whatever the bus reports: straight from the
    measured start to the target at the declared speed, never outside the limits. */
module ArmSetpoints {
  import opened ArmProfile
  import opened ArmMotion

  /** The setpoint after `k` writes, in closed form. */
  function Along(start: real, target: real, step: real, k: nat): real {
    start + CopySign(Min(Abs(target - start), k as real * step), target - start)
  }

  function PoseAlong(start: Pose, target: Pose, step: real, k: nat): Pose
    requires start.Keys <= target.Keys
  {
    map n | n in start :: Along(start[n], target[n], step, k)
  }

  lemma OneMoreStep(step: real, k: nat)
    requires 0.0 < step
    ensures (k + 1) as real * step == k as real * step + step && 0.0 <= k as real * step
  {
  }

  /** The loop's rate-limited step is the next point of the straight line. */
  lemma StepFollowsLine(start: real, target: real, step: real, k: nat)
    requires 0.0 < step
    ensures Toward(Along(start, target, step, k), target, step) == Along(start, target, step, k + 1)
    ensures Along(start, target, step, 0) == start
  {
    OneMoreStep(step, k);
    assert 0 as real * step == 0.0;
  }

  predicate Between(x: real, a: real, b: real) {
    a <= x <= b || b <= x <= a
  }

  /** Every setpoint lies between start and target, is at most one step from the
      last, and is the target exactly from the write the gap needs on. */
  lemma LineIsRateLimited(start: real, target: real, step: real, k: nat)
    requires 0.0 < step
    ensures Between(Along(start, target, step, k), start, target)
    ensures Abs(Along(start, target, step, k + 1) - Along(start, target, step, k)) <= step
    ensures Along(start, target, step, k) == target <==> Abs(target - start) <= k as real * step
  {
    OneMoreStep(step, k);
  }

  lemma PoseFollowsLine(start: Pose, target: Pose, step: real, k: nat)
    requires 0.0 < step && start.Keys == target.Keys
    ensures Advanced(PoseAlong(start, target, step, k), target, step) == PoseAlong(start, target, step, k + 1)
    ensures PoseAlong(start, target, step, 0) == start
  {
    forall n | n in start
      ensures Toward(Along(start[n], target[n], step, k), target[n], step) == Along(start[n], target[n], step, k + 1)
      ensures Along(start[n], target[n], step, 0) == start[n]
    {
      StepFollowsLine(start[n], target[n], step, k);
    }
  }

  /** From a start within the limits toward a target within them, every setpoint is. */
  lemma LineInLimits(p: ArmProfile, start: Pose, target: Pose, step: real, k: nat)
    requires 0.0 < step && start.Keys == target.Keys == p.Names() && p.InLimits(start) && p.InLimits(target)
    ensures p.InLimits(PoseAlong(start, target, step, k))
  {
    forall n | n in start
      ensures p.Limit(n).minRad <= Along(start[n], target[n], step, k) <= p.Limit(n).maxRad
    {
      LineIsRateLimited(start[n], target[n], step, k);
    }
  }
}
