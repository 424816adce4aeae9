/** What each step of a call adds to the trace, over any bus: a way to say of every
    entry a call adds that it is of some kind. */
module ArmTrace {
  import opened ArmProfile
  import opened ArmBus
  import opened ArmMotion

  /** The trace only grows, and every entry added is of this kind. */
  ghost predicate Adds<S>(a: Arm<S>, b: Arm<S>, ok: Entry -> bool) {
    && a.trace <= b.trace
    && forall i :: |a.trace| <= i < |b.trace| ==> ok(b.trace[i])
  }

  /** The kinds of entry a stop adds. */
  ghost predicate AllowsStops(ok: Entry -> bool) {
    && ok(Faulted) && (forall pose :: ok(Goals(ByStop, pose))) && (forall on :: ok(Torque(ByStop, on)))
    && (forall confirmed :: ok(StopEnded(confirmed)))
  }

  lemma AddsNothing<S>(a: Arm<S>, b: Arm<S>, ok: Entry -> bool)
    requires a.trace == b.trace
    ensures Adds(a, b, ok)
  {
  }

  lemma AddsThen<S>(a: Arm<S>, b: Arm<S>, c: Arm<S>, ok: Entry -> bool)
    requires Adds(a, b, ok) && Adds(b, c, ok)
    ensures Adds(a, c, ok)
  {
    forall i | |a.trace| <= i < |c.trace|
      ensures ok(c.trace[i])
    {
      if i < |b.trace| {
        assert c.trace[i] == b.trace[i];
      }
    }
  }

  lemma AddsEntries<S>(a: Arm<S>, b: Arm<S>, entries: seq<Entry>, last: seq<Entry>, ok: Entry -> bool)
    requires b.trace == a.trace + entries + last
    requires (forall i :: 0 <= i < |entries| ==> ok(entries[i])) && (forall i :: 0 <= i < |last| ==> ok(last[i]))
    ensures Adds(a, b, ok)
  {
  }

  lemma ReadAdds<S>(p: ArmProfile, d: Driver<S>, a: Arm<S>, ok: Entry -> bool)
    requires ok(Faulted)
    ensures Adds(a, ReadPose(p, d, a).0, ok) && ReadPose(p, d, a).0.now == a.now
  {
  }

  lemma ReadTorqueAdds<S>(p: ArmProfile, d: Driver<S>, a: Arm<S>, ok: Entry -> bool)
    requires ok(Faulted)
    ensures Adds(a, ReadTorque(p, d, a).0, ok) && ReadTorque(p, d, a).0.now == a.now
  {
  }

  lemma WriteAdds<S>(d: Driver<S>, a: Arm<S>, origin: Origin, goals: Pose, ok: Entry -> bool)
    requires ok(Faulted) && ok(Goals(origin, goals))
    ensures Adds(a, WriteGoals(d, a, origin, goals).0, ok) && WriteGoals(d, a, origin, goals).0.now == a.now
  {
  }

  lemma TorqueAdds<S>(d: Driver<S>, a: Arm<S>, origin: Origin, on: bool, ok: Entry -> bool)
    requires ok(Faulted) && ok(Torque(origin, on))
    ensures Adds(a, SetTorque(d, a, origin, on).0, ok) && SetTorque(d, a, origin, on).0.now == a.now
  {
  }

  lemma {:induction false} SampledAdds<S>(p: ArmProfile, d: Driver<S>, a: Arm<S>, reference: Pose, count: nat, interval: real,
                                          last: Pose, drift: real, ok: Entry -> bool)
    requires reference.Keys == p.Names() && last.Keys == p.Names() && ok(Faulted)
    ensures Adds(a, Sampled(p, d, a, reference, count, interval, last, drift).0, ok)
    decreases count
  {
    if count > 0 {
      var (after, pose) := ReadPose(p, d, Slept(a, interval));
      ReadAdds(p, d, Slept(a, interval), ok);
      if pose.Ok? {
        var more := MaxDrift(p.joints, pose.value, reference, drift);
        SampledAdds(p, d, after, reference, count - 1, interval, pose.value, more, ok);
        AddsThen(a, after, Sampled(p, d, after, reference, count - 1, interval, pose.value, more).0, ok);
      }
    }
  }

  lemma HoldAdds<S>(p: ArmProfile, d: Driver<S>, a: Arm<S>, ok: Entry -> bool)
    requires AllowsStops(ok)
    ensures Adds(a, Hold(p, d, a).0, ok)
  {
    hide Adds, ReadPose, ReadTorque, WriteGoals, SetTorque, Sampled;
    var (a1, held) := ReadPose(p, d, a);
    ReadAdds(p, d, a, ok);
    if held.Ok? {
      var (a2, wrote) := WriteGoals(d, a1, ByStop, held.value);
      WriteAdds(d, a1, ByStop, held.value, ok);
      AddsThen(a, a1, a2, ok);
      if wrote.Ok? {
        var (a3, set_) := SetTorque(d, a2, ByStop, true);
        TorqueAdds(d, a2, ByStop, true, ok);
        AddsThen(a, a2, a3, ok);
        if set_.Ok? {
          var (a4, torque) := ReadTorque(p, d, a3);
          ReadTorqueAdds(p, d, a3, ok);
          AddsThen(a, a3, a4, ok);
          if torque.Ok? {
            SampledAdds(p, d, a4, held.value, p.stopSamples, p.stopPeriod, held.value, 0.0, ok);
            AddsThen(a, a4, Sampled(p, d, a4, held.value, p.stopSamples, p.stopPeriod, held.value, 0.0).0, ok);
          }
        }
      }
    }
  }

  lemma TorqueOffAdds<S>(p: ArmProfile, d: Driver<S>, a: Arm<S>, ok: Entry -> bool)
    requires AllowsStops(ok)
    ensures Adds(a, TorqueOff(p, d, a).0, ok)
  {
    hide Adds, ReadTorque, SetTorque;
    var (a1, set_) := SetTorque(d, a, ByStop, false);
    TorqueAdds(d, a, ByStop, false, ok);
    if set_.Ok? {
      ReadTorqueAdds(p, d, a1, ok);
      AddsThen(a, a1, ReadTorque(p, d, a1).0, ok);
    }
  }

  /** A stop writes as a stop, never as a motion. */
  lemma StopAdds<S>(p: ArmProfile, d: Driver<S>, a: Arm<S>, ok: Entry -> bool)
    requires AllowsStops(ok)
    ensures Adds(a, Stop(p, d, a).0, ok)
  {
    var ran := if p.stopMode.StopTorqueOff? then TorqueOff(p, d, a) else Hold(p, d, a);
    if p.stopMode.StopTorqueOff? {
      TorqueOffAdds(p, d, a, ok);
    } else {
      HoldAdds(p, d, a, ok);
    }
    LastAdds(a, ran.0, Stop(p, d, a).0, StopEnded(Stop(p, d, a).1.confirmed), ok);
  }

  lemma LastAdds<S>(a: Arm<S>, b: Arm<S>, c: Arm<S>, e: Entry, ok: Entry -> bool)
    requires Adds(a, b, ok) && ok(e) && c.trace == b.trace + [e]
    ensures Adds(a, c, ok)
  {
  }

  /** The kinds of entry a motion adds before its loop: hold the measured pose, turn
      torque on. */
  ghost predicate AllowsPreparing(p: ArmProfile, ok: Entry -> bool) {
    && ok(Faulted) && ok(Torque(ByMotion, true))
    && (forall pose: Pose :: pose.Keys == p.Names() && p.InLimits(pose) ==> ok(Goals(ByMotion, pose)))
  }

  lemma EnableAdds<S>(p: ArmProfile, d: Driver<S>, a: Arm<S>, before: Pose, ok: Entry -> bool)
    requires AllowsPreparing(p, ok) && before.Keys == p.Names() && p.InLimits(before)
    ensures Adds(a, EnableTorque(p, d, a, before).0, ok) && EnableTorque(p, d, a, before).0.now == a.now
  {
    hide Adds, ReadTorque, WriteGoals, SetTorque, AllOn;
    var (a1, torque) := ReadTorque(p, d, a);
    ReadTorqueAdds(p, d, a, ok);
    if torque.Ok? && !AllOn(torque.value) {
      var (a2, wrote) := WriteGoals(d, a1, ByMotion, before);
      WriteAdds(d, a1, ByMotion, before, ok);
      AddsThen(a, a1, a2, ok);
      if wrote.Ok? {
        var (a3, set_) := SetTorque(d, a2, ByMotion, true);
        TorqueAdds(d, a2, ByMotion, true, ok);
        AddsThen(a, a2, a3, ok);
        if set_.Ok? {
          ReadTorqueAdds(p, d, a3, ok);
          AddsThen(a, a3, ReadTorque(p, d, a3).0, ok);
        }
      }
    }
  }

  /** Not ready to move means nothing was written, or a failure. */
  lemma PrepareAdds<S>(p: ArmProfile, d: Driver<S>, a: Arm<S>, fromHere: Pose -> bool, ok: Entry -> bool)
    requires AllowsPreparing(p, ok)
    ensures var (after, ready) := Prepare(p, d, a, fromHere);
            && Adds(a, after, ok) && after.now == a.now
            && (ready.Ok? && ready.value.NotReady? ==>
                  && (ready.value.result.outcome.Refused? ==> after.trace == a.trace)
                  && !ready.value.result.outcome.Completed?)
  {
    hide Adds, ReadPose, EnableTorque;
    var (a1, before) := ReadPose(p, d, a);
    ReadAdds(p, d, a, ok);
    ReadOkAddsNothing(p, d, a);
    if before.Ok? && p.InLimits(before.value) && fromHere(before.value) {
      EnableAdds(p, d, a1, before.value, ok);
      AddsThen(a, a1, EnableTorque(p, d, a1, before.value).0, ok);
    }
  }

  lemma ReadOkAddsNothing<S>(p: ArmProfile, d: Driver<S>, a: Arm<S>)
    ensures ReadPose(p, d, a).1.Ok? ==> ReadPose(p, d, a).0.trace == a.trace
  {
  }
}
