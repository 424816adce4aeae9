/** The declared data of an arm: joints, limits, bounds, and the geometry of its jaws
    (flyto_robotics/arm_adapter.py). */
module ArmProfile {
  import opened Wrappers

  datatype JointLimit = JointLimit(name: string, minRad: real, maxRad: real)

  datatype StopMode = StopHold | StopTorqueOff

  datatype ProfileError = ProfileInvalid(key: string)

  type Pose = map<string, real>

  function Abs(x: real): real {
    if x < 0.0 then -x else x
  }

  function Min(x: real, y: real): real {
    if y < x then y else x
  }

  function Max(x: real, y: real): real {
    if y > x then y else x
  }

  function CopySign(magnitude: real, sign: real): real {
    if sign < 0.0 then -magnitude else magnitude
  }

  /** One rate-limited step toward a target. */
  function Toward(from: real, target: real, step: real): real {
    from + CopySign(Min(Abs(target - from), step), target - from)
  }

  datatype GripperProfile = GripperProfile(joint: string, closedRad: real, openRad: real, releaseRad: real,
                                           maxSpeed: real, tolerance: real, minGap: real, holdSamples: nat,
                                           holdMaxDrift: real) {

    /** One if opening raises the angle, else minus one. */
    function Opening(): real {
      if openRad > closedRad then 1.0 else -1.0
    }

    /** The distance to the closed limit, negative beyond it. */
    function Gap(position: real): real {
      (position - closedRad) * Opening()
    }

    predicate InReleaseRange(target: real) {
      if releaseRad <= openRad then releaseRad <= target <= openRad else openRad <= target <= releaseRad
    }

    /** What every parsed gripper meets, for its joint's limits. */
    predicate Valid(limit: JointLimit) {
      && joint == limit.name && limit.minRad < limit.maxRad
      && ((closedRad == limit.minRad && openRad == limit.maxRad) || (closedRad == limit.maxRad && openRad == limit.minRad))
      && limit.minRad <= releaseRad <= limit.maxRad
      && 0.0 < maxSpeed && 0.0 < tolerance < minGap && 1 <= holdSamples && 0.0 < holdMaxDrift
      && Gap(releaseRad) > minGap + tolerance
    }
  }

  datatype ArmProfile = ArmProfile(joints: seq<JointLimit>, limitsAccepted: bool, tolerance: real, maxSpeed: real,
                                   period: real, moveDeadline: real, stallWindow: real, stallMinProgress: real,
                                   settleSamples: nat, settleMaxDrift: real, stopMode: StopMode, stopSamples: nat,
                                   stopPeriod: real, stopMaxDrift: real, gripper: Option<GripperProfile>) {

    function Names(): set<string> {
      set j | j in joints :: j.name
    }

    function Limit(name: string): JointLimit
      requires name in Names()
    {
      LimitIn(joints, name)
    }

    predicate InLimits(pose: Pose)
      requires pose.Keys <= Names()
    {
      forall n :: n in pose ==> Limit(n).minRad <= pose[n] <= Limit(n).maxRad
    }

    /** What every parsed profile meets. */
    predicate Valid() {
      && 1 <= |joints| <= 8
      && (forall i, j :: 0 <= i < j < |joints| ==> joints[i].name != joints[j].name)
      && (forall j :: j in joints ==> j.minRad < j.maxRad)
      && 0.0 < tolerance && 0.0 < maxSpeed && 0.0 < period && 0.0 < moveDeadline
      && 0.0 < stallWindow && 0.0 < stallMinProgress && 1 <= settleSamples && 0.0 < settleMaxDrift
      && 1 <= stopSamples && 0.0 < stopPeriod && 0.0 < stopMaxDrift
      && (gripper.Some? ==> gripper.value.joint in Names() && gripper.value.Valid(Limit(gripper.value.joint)))
    }
  }

  function LimitIn(joints: seq<JointLimit>, name: string): (limit: JointLimit)
    requires exists j :: j in joints && j.name == name
    ensures limit in joints && limit.name == name
  {
    if joints[0].name == name then joints[0] else LimitIn(joints[1..], name)
  }

  /** The gripper section of a profile, every key present and of its type. */
  datatype RawGripper = RawGripper(joint: string, closesToward: string, releaseRad: real, maxSpeed: real,
                                   tolerance: real, minGap: real, holdSamples: int, holdMaxDrift: real)

  /** A parsed gripper can always grasp and release: its travel is its joint's
      limits, jaws within tolerance of closed never read as holding, and a
      released gripper never reads as closed on an object. */
  function ParseGripper(raw: RawGripper, joints: seq<JointLimit>): (r: Result<GripperProfile, ProfileError>)
    requires forall j :: j in joints ==> j.minRad < j.maxRad
    ensures r.Ok? ==> (exists j :: j in joints && j.name == raw.joint) && r.value.Valid(LimitIn(joints, raw.joint))
  {
    if !exists j :: j in joints && j.name == raw.joint then Err(ProfileInvalid("joint"))
    else if raw.closesToward != "min" && raw.closesToward != "max" then Err(ProfileInvalid("closes_toward"))
    else if raw.tolerance <= 0.0 then Err(ProfileInvalid("position_tolerance_rad"))
    else if raw.minGap <= 0.0 then Err(ProfileInvalid("object_min_gap_rad"))
    else if raw.maxSpeed <= 0.0 then Err(ProfileInvalid("max_speed_rad_s"))
    else if raw.holdSamples < 1 then Err(ProfileInvalid("hold.samples"))
    else if raw.holdMaxDrift <= 0.0 then Err(ProfileInvalid("hold.max_drift_rad"))
    else
      var limit := LimitIn(joints, raw.joint);
      var closed := if raw.closesToward == "min" then limit.minRad else limit.maxRad;
      var far := if raw.closesToward == "min" then limit.maxRad else limit.minRad;
      var gripper := GripperProfile(raw.joint, closed, far, raw.releaseRad, raw.maxSpeed, raw.tolerance, raw.minGap,
                                    raw.holdSamples, raw.holdMaxDrift);
      if !(limit.minRad <= raw.releaseRad <= limit.maxRad) then Err(ProfileInvalid("release_rad"))
      else if !(raw.minGap > raw.tolerance) then Err(ProfileInvalid("object_min_gap_rad"))
      else if !(gripper.Gap(raw.releaseRad) > raw.minGap + raw.tolerance) then Err(ProfileInvalid("release_rad"))
      else Ok(gripper)
  }

  /** A gripper section is accepted exactly when it names a declared joint and a side,
      its bounds are positive, an object's gap is more than the tolerance, and its
      release lies within the joint's limits, farther from the side it closes to than
      both together. It closes to the side it says and keeps what it was given. */
  lemma ParsesExactlyWhen(raw: RawGripper, joints: seq<JointLimit>, limit: JointLimit)
    requires forall j :: j in joints ==> j.minRad < j.maxRad
    requires (exists j :: j in joints && j.name == raw.joint) ==> limit == LimitIn(joints, raw.joint)
    ensures ParseGripper(raw, joints).Ok?
            <==> && (exists j :: j in joints && j.name == raw.joint)
                 && (raw.closesToward == "min" || raw.closesToward == "max")
                 && 0.0 < raw.tolerance < raw.minGap && 0.0 < raw.maxSpeed && 1 <= raw.holdSamples && 0.0 < raw.holdMaxDrift
                 && limit.minRad <= raw.releaseRad <= limit.maxRad
                 && (if raw.closesToward == "min" then raw.releaseRad - limit.minRad else limit.maxRad - raw.releaseRad)
                    > raw.minGap + raw.tolerance
    ensures ParseGripper(raw, joints).Ok? ==>
              var g := ParseGripper(raw, joints).value;
              && (g.closedRad == limit.minRad <==> raw.closesToward == "min")
              && (g.openRad == limit.maxRad <==> raw.closesToward == "min")
              && g.joint == raw.joint && g.releaseRad == raw.releaseRad && g.maxSpeed == raw.maxSpeed
              && g.tolerance == raw.tolerance && g.minGap == raw.minGap && g.holdSamples == raw.holdSamples
              && g.holdMaxDrift == raw.holdMaxDrift
  {
    if (exists j :: j in joints && j.name == raw.joint) && raw.closesToward == "max" {
      assert raw.closesToward != "min";
      assert limit.minRad < limit.maxRad;
    }
  }

  /** Opening is monotone in either closing direction: a position between the
      release position and the open limit is at least as open as the release. */
  lemma ReleaseRangeIsOpen(g: GripperProfile, limit: JointLimit, target: real)
    requires g.Valid(limit) && g.InReleaseRange(target)
    ensures g.Gap(target) >= g.Gap(g.releaseRad) && limit.minRad <= target <= limit.maxRad
  {
    if g.openRad > g.closedRad {
      assert g.Gap(target) == target - g.closedRad && g.Gap(g.releaseRad) == g.releaseRad - g.closedRad;
    } else {
      assert g.Gap(target) == g.closedRad - target && g.Gap(g.releaseRad) == g.closedRad - g.releaseRad;
    }
  }

  lemma GapMoves(g: GripperProfile, p: real, q: real)
    ensures Abs(g.Gap(p) - g.Gap(q)) == Abs(p - q)
  {
  }
}
