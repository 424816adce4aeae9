/** Whole runs of calls over any bus: what the latched faults and the kept results
    keep true of everything ever asked of the bus (flyto_robotics/arm_adapter.py). */
module ArmRuns {
  import opened ArmMotion

  // ---------------------------------------------------------------------------
  // Watching a trace
  // ---------------------------------------------------------------------------

  predicate MotionWrite(e: Entry) {
    (e.Goals? || e.Torque?) && e.origin.ByMotion?
  }

  /** What a watcher of a trace knows: a fault with no complete read since, a last
      stop unconfirmed, whether every motion write so far came with neither, and the
      motions that ended. */
  datatype Watcher = Watcher(unknown: bool, unconfirmed: bool, safe: bool, ended: set<string>, once: bool)

  function Seen(w: Watcher, e: Entry): Watcher {
    match e
    case Faulted => w.(unknown := true)
    case StateRead => w.(unknown := false)
    case StopEnded(confirmed) => w.(unconfirmed := !confirmed)
    case MotionEnded(id) => w.(ended := w.ended + {id}, once := w.once && id !in w.ended)
    case Goals(_, _) => w.(safe := w.safe && (MotionWrite(e) ==> !w.unknown && !w.unconfirmed))
    case Torque(_, _) => w.(safe := w.safe && (MotionWrite(e) ==> !w.unknown && !w.unconfirmed))
  }

  function Watched(t: seq<Entry>): Watcher {
    if t == [] then Watcher(false, false, true, {}, true) else Seen(Watched(t[..|t| - 1]), t[|t| - 1])
  }

  lemma WatchedNext(t: seq<Entry>, e: Entry)
    ensures Watched(t + [e]) == Seen(Watched(t), e)
  {
    assert (t + [e])[..|t|] == t;
  }

  /** No motion write follows a fault without a complete state read between them,
      nor an unconfirmed stop without a confirmed one. */
  ghost predicate SafeTrace(t: seq<Entry>) {
    && (forall f, i :: 0 <= f < i < |t| && t[f].Faulted? && MotionWrite(t[i]) ==> exists j :: f < j < i && t[j].StateRead?)
    && (forall f, i :: 0 <= f < i < |t| && t[f] == StopEnded(false) && MotionWrite(t[i]) ==>
          exists j :: f < j < i && t[j] == StopEnded(true))
  }

  /** No call id ends two motions. */
  ghost predicate EndsOnce(t: seq<Entry>) {
    forall i, j :: 0 <= i < j < |t| && t[i].MotionEnded? ==> t[i] != t[j]
  }

  lemma {:induction false} UnknownSinceFault(t: seq<Entry>, f: nat)
    requires f < |t| && t[f].Faulted? && !Watched(t).unknown
    ensures exists j :: f < j < |t| && t[j].StateRead?
  {
    if f < |t| - 1 && !t[|t| - 1].StateRead? {
      UnknownSinceFault(t[..|t| - 1], f);
    }
  }

  lemma {:induction false} UnconfirmedSinceStop(t: seq<Entry>, f: nat)
    requires f < |t| && t[f] == StopEnded(false) && !Watched(t).unconfirmed
    ensures exists j :: f < j < |t| && t[j] == StopEnded(true)
  {
    if f < |t| - 1 && t[|t| - 1] != StopEnded(true) {
      UnconfirmedSinceStop(t[..|t| - 1], f);
    }
  }

  lemma {:induction false} EndedHolds(t: seq<Entry>, i: nat)
    requires i < |t| && t[i].MotionEnded?
    ensures t[i].callId in Watched(t).ended
  {
    if i < |t| - 1 {
      EndedHolds(t[..|t| - 1], i);
    }
  }

  lemma SafeNext(t: seq<Entry>, e: Entry)
    requires SafeTrace(t) && EndsOnce(t)
    requires forall f :: 0 <= f < |t| && t[f].Faulted? && MotionWrite(e) ==> exists j :: f < j < |t| && t[j].StateRead?
    requires forall f :: 0 <= f < |t| && t[f] == StopEnded(false) && MotionWrite(e) ==>
               exists j :: f < j < |t| && t[j] == StopEnded(true)
    requires forall i :: 0 <= i < |t| && t[i].MotionEnded? ==> t[i] != e
    ensures SafeTrace(t + [e]) && EndsOnce(t + [e])
  {
    var u := t + [e];
    forall f, i | 0 <= f < i < |u| && u[f].Faulted? && MotionWrite(u[i])
      ensures exists j :: f < j < i && u[j].StateRead?
    {
      assert u[f] == t[f];
      var j :| f < j < i && t[j].StateRead?;
      assert u[j].StateRead?;
    }
    forall f, i | 0 <= f < i < |u| && u[f] == StopEnded(false) && MotionWrite(u[i])
      ensures exists j :: f < j < i && u[j] == StopEnded(true)
    {
      assert u[f] == t[f];
      var j :| f < j < i && t[j] == StopEnded(true);
      assert u[j] == StopEnded(true);
    }
  }

  /** What the watcher knows is what the trace says. */
  lemma {:induction false} WatcherIsRight(t: seq<Entry>)
    requires Watched(t).safe && Watched(t).once
    ensures SafeTrace(t) && EndsOnce(t)
  {
    if t == [] {
    } else {
      hide SafeTrace, EndsOnce;
      var before, e := t[..|t| - 1], t[|t| - 1];
      assert t == before + [e];
      WatcherIsRight(before);
      EveryFaultRead(before, e);
      EveryEndOther(before, e);
      SafeNext(before, e);
    }
  }

  lemma EveryFaultRead(t: seq<Entry>, e: Entry)
    requires Seen(Watched(t), e).safe
    ensures forall f :: 0 <= f < |t| && t[f].Faulted? && MotionWrite(e) ==> exists j :: f < j < |t| && t[j].StateRead?
    ensures forall f :: 0 <= f < |t| && t[f] == StopEnded(false) && MotionWrite(e) ==>
              exists j :: f < j < |t| && t[j] == StopEnded(true)
  {
    hide Watched;
    forall f: nat | f < |t| && t[f].Faulted? && MotionWrite(e)
      ensures exists j :: f < j < |t| && t[j].StateRead?
    {
      UnknownSinceFault(t, f);
    }
    forall f: nat | f < |t| && t[f] == StopEnded(false) && MotionWrite(e)
      ensures exists j :: f < j < |t| && t[j] == StopEnded(true)
    {
      UnconfirmedSinceStop(t, f);
    }
  }

  lemma EveryEndOther(t: seq<Entry>, e: Entry)
    requires Seen(Watched(t), e).once
    ensures forall i :: 0 <= i < |t| && t[i].MotionEnded? ==> t[i] != e
  {
    hide Watched;
    forall i: nat | i < |t| && t[i].MotionEnded?
      ensures t[i] != e
    {
      EndedHolds(t, i);
    }
  }
}
