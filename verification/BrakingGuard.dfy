/** The guard that watches a straight drive: judged on every scan, and between
    scans on how old the last one is (the guard slice of
    flyto_robotics/generic_ros2_adapter.py). */
module BrakingGuard {
  import opened Wrappers
  import opened BrakingEnvelope

  const GUARD_POLL_S := 0.05
  const SLOWDOWN_FRACTION := 0.8
  const SLOWDOWN_STEP := 0.9
  const SLOWDOWN_MIN_INTERVAL_S := 0.5
  const STRAIGHT_STALENESS := ScanStalePolicy(15.0, 3.0, Some(2.0), true)

  type Sweep = Option<seq<Point>>

  datatype Cause = TripBlind | TripClearance | TripStale

  /** What the guard of one drive holds. */
  datatype Watch = Watch(profile: BrakingProfile, speed: real, resends: bool, tripped: Option<Cause>,
                         slowTo: Option<real>, lastSlowdownAt: real, lastRoom: Option<Extent>,
                         minimumRoom: Option<Extent>)

  /** Scan timing the staleness limit is taken from. */
  datatype Timing = Timing(configured: real, nominal: Option<real>, worst: Option<real>)

  predicate Shorter(a: Extent, b: Extent) {
    a.Within? && (b.Unlimited? || a.value < b.value)
  }

  function Scaled(e: Extent, factor: real): Extent {
    match e
    case Unlimited => Unlimited
    case Within(m) => Within(m * factor)
  }

  function Tripped(w: Watch, cause: Cause): Watch {
    if w.tripped.Some? then w else w.(tripped := Some(cause), slowTo := None)
  }

  /** The guard after one scan. A guard that has tripped is left as it is. */
  function Judged(w: Watch, sweep: Sweep, measured: real, now: real, sqrt: real -> real): Watch
    requires w.profile.Valid()
  {
    if w.tripped.Some? then w
    else
      var room := MeasuredRoom(sweep, w.profile.floor, sqrt);
      if room.None? then Tripped(w, TripBlind)
      else
        var seen := w.(lastRoom := Some(room.value.room),
                       minimumRoom := if w.minimumRoom.None? || Shorter(room.value.room, w.minimumRoom.value)
                                      then Some(room.value.room) else w.minimumRoom);
        var speed := Max(w.speed, measured);
        var allowed := Scaled(w.profile.MaxSpeed(room.value.room, sqrt), SLOWDOWN_FRACTION);
        if AtOrInside(room.value.room, w.profile.StoppingDistance(speed))
           || (w.resends && Shorter(allowed, Within(MIN_SPEED_MPS)))
        then Tripped(seen, TripClearance)
        else if w.resends && Shorter(allowed, Within(w.speed * SLOWDOWN_STEP))
                && SLOWDOWN_MIN_INTERVAL_S <= now - w.lastSlowdownAt
        then seen.(slowTo := Some(allowed.value))
        else seen
  }

  predicate AtOrInside(room: Extent, stopping: real) {
    room.Within? && room.value <= stopping
  }

  /** The guard after one look at the age of the last scan. */
  function Refreshed(w: Watch, age: Option<real>, measured: real, timing: Timing): Watch
    requires w.profile.Valid()
  {
    if w.tripped.Some? || (age.Some? && age.value <= GUARD_POLL_S) then w
    else if age.None?
            || age.value > ScanStaleLimit(STRAIGHT_STALENESS, timing.configured, timing.nominal, timing.worst,
                                          w.profile, w.lastRoom, Max(w.speed, measured), GUARD_POLL_S)
    then Tripped(w, TripStale)
    else w
  }

  /** One drive's guard, updated in place under the backend's condition. */
  class DriveGuard {
    const profile: BrakingProfile
    const resends: bool
    var speed: real
    var tripped: Option<Cause>
    var slowTo: Option<real>
    var lastSlowdownAt: real
    var lastRoom: Option<Extent>
    var minimumRoom: Option<Extent>

    ghost function State(): Watch
      reads this
    {
      Watch(profile, speed, resends, tripped, slowTo, lastSlowdownAt, lastRoom, minimumRoom)
    }

    constructor (profile: BrakingProfile, speed: real, resends: bool, startRoom: Option<Extent>, now: real)
      ensures State() == Watch(profile, speed, resends, None, None, now, startRoom, None)
    {
      this.profile, this.speed, this.resends := profile, speed, resends;
      tripped, slowTo, lastSlowdownAt := None, None, now;
      lastRoom, minimumRoom := startRoom, None;
    }

    method Trip(cause: Cause)
      modifies this
      ensures State() == Tripped(old(State()), cause)
    {
      if tripped.Some? {
        return;
      }
      tripped := Some(cause);
      slowTo := None;
    }

    method Judge(sweep: Sweep, measured: real, now: real, sqrt: real -> real)
      requires profile.Valid()
      modifies this
      ensures State() == Judged(old(State()), sweep, measured, now, sqrt)
    {
      if tripped.Some? {
        return;
      }
      var measurement := RoomToFloor(sweep, profile.floor, sqrt);
      if measurement.None? {
        Trip(TripBlind);
        return;
      }
      var room := measurement.value.room;
      lastRoom := Some(room);
      if minimumRoom.None? || Shorter(room, minimumRoom.value) {
        minimumRoom := Some(room);
      }
      var judged := Max(speed, measured);
      var stopping := profile.StoppingDistance(judged);
      var allowed := Scaled(profile.MaxSpeed(room, sqrt), SLOWDOWN_FRACTION);
      var cannotSlow := resends && Shorter(allowed, Within(MIN_SPEED_MPS));
      if AtOrInside(room, stopping) || cannotSlow {
        Trip(TripClearance);
        return;
      }
      if resends && Shorter(allowed, Within(speed * SLOWDOWN_STEP))
         && now - lastSlowdownAt >= SLOWDOWN_MIN_INTERVAL_S {
        slowTo := Some(allowed.value);
      }
    }

    method CheckScanFresh(seenAt: Option<real>, now: real, measured: real, timing: Timing)
      requires profile.Valid()
      modifies this
      ensures State() == Refreshed(old(State()), if seenAt.None? then None else Some(now - seenAt.value), measured, timing)
    {
      if tripped.Some? {
        return;
      }
      if seenAt.Some? && now - seenAt.value <= GUARD_POLL_S {
        return;
      }
      var limit := ScanStaleLimit(STRAIGHT_STALENESS, timing.configured, timing.nominal, timing.worst,
                                  profile, lastRoom, Max(speed, measured), GUARD_POLL_S);
      if seenAt.None? || now - seenAt.value > limit {
        Trip(TripStale);
      }
    }
  }

  /** Every guarded drive is judged on the same scan; none affects another. */
  method CheckGuards(guards: seq<DriveGuard>, sweep: Sweep, measured: real, now: real, sqrt: real -> real)
    requires forall g <- guards :: g.profile.Valid()
    requires forall i, j :: 0 <= i < j < |guards| ==> guards[i] != guards[j]
    modifies guards
    ensures forall g <- guards :: g.State() == Judged(old(g.State()), sweep, measured, now, sqrt)
  {
    for i := 0 to |guards|
      invariant forall k :: 0 <= k < i ==> guards[k].State() == Judged(old(guards[k].State()), sweep, measured, now, sqrt)
      invariant forall k :: i <= k < |guards| ==> guards[k].State() == old(guards[k].State())
    {
      guards[i].Judge(sweep, measured, now, sqrt);
    }
  }

  // ---------------------------------------------------------------------------
  // What the guard decides, by what could stop
  // ---------------------------------------------------------------------------

  /** The room an untripped guard sees, for a sweep it can read. */
  function RoomIn(w: Watch, sweep: Sweep, sqrt: real -> real): Extent
    requires sweep.Some?
  {
    RoomOf(sweep.value, w.profile.floor, sqrt).room
  }

  predicate Readable(sweep: Sweep) {
    sweep.Some? && sweep.value != []
  }

  /** The speed that `SLOWDOWN_FRACTION` of is `v`. */
  function Before(v: real): real {
    v / SLOWDOWN_FRACTION
  }

  /** A fraction of the fastest speed is under a bound exactly when that much more
      than the bound could not stop. */
  lemma AllowedIsUnder(p: BrakingProfile, room: Extent, bound: real, sqrt: real -> real)
    requires p.Valid() && IsSqrt(sqrt) && 0.0 < bound
    ensures Shorter(Scaled(p.MaxSpeed(room, sqrt), SLOWDOWN_FRACTION), Within(bound))
            <==> !AtMost(p.StoppingDistance(Before(bound)), room)
  {
    if room.Within? && room.value < 0.0 {
      NothingFits(p, Before(bound), room);
    } else {
      hide BrakingProfile.StoppingDistance;
      StopsWithinExactlyAtMaxSpeed(p, Before(bound), room, sqrt);
    }
  }

  lemma NothingFits(p: BrakingProfile, v: real, room: Extent)
    requires p.Valid() && 0.0 <= v && room.Within? && room.value < 0.0
    ensures !AtMost(p.StoppingDistance(v), room)
  {
    LawGrows(0.0, v, p.latency, p.decel);
  }

  /** A scan trips exactly when it cannot be read, when the room it shows is at most
      the stopping distance of the faster of the guard's and the measured speed, or,
      for a drive that can be slowed, when even the slowest speed before its fraction
      could not stop in it. */
  lemma ScanTripsExactlyWhen(w: Watch, sweep: Sweep, measured: real, now: real, sqrt: real -> real)
    requires w.profile.Valid() && IsSqrt(sqrt) && w.tripped.None?
    ensures var p, cause := w.profile, Judged(w, sweep, measured, now, sqrt).tripped;
            && (cause == Some(TripBlind) <==> !Readable(sweep))
            && (cause == Some(TripClearance)
                <==> && Readable(sweep)
                     && (|| AtOrInside(RoomIn(w, sweep, sqrt), p.StoppingDistance(Max(w.speed, measured)))
                         || (w.resends && !AtMost(p.StoppingDistance(Before(MIN_SPEED_MPS)), RoomIn(w, sweep, sqrt)))))
            && cause != Some(TripStale)
  {
    if Readable(sweep) {
      AllowedIsUnder(w.profile, RoomIn(w, sweep, sqrt), MIN_SPEED_MPS, sqrt);
    }
  }

  /** A scan that trips nothing asks for a slower speed exactly when the drive can be
      re-sent, a clearly slower speed before its fraction could not stop in the room,
      and the last slow-down is long enough ago. What it asks for is the given
      fraction of the fastest speed that can stop there: of exactly the speeds that
      can, that fraction is within it. */
  lemma ScanSlowsExactlyWhen(w: Watch, sweep: Sweep, measured: real, now: real, sqrt: real -> real, u: real)
    requires w.profile.Valid() && IsSqrt(sqrt) && w.tripped.None? && 0.0 < w.speed && 0.0 <= u
    requires Judged(w, sweep, measured, now, sqrt).tripped.None?
    ensures var p, after, room := w.profile, Judged(w, sweep, measured, now, sqrt), RoomIn(w, sweep, sqrt);
            var slows := && w.resends && !AtMost(p.StoppingDistance(Before(w.speed * SLOWDOWN_STEP)), room)
                         && SLOWDOWN_MIN_INTERVAL_S <= now - w.lastSlowdownAt;
            && (!slows ==> after.slowTo == w.slowTo)
            && (slows ==>
                  && after.slowTo.Some? && MIN_SPEED_MPS <= after.slowTo.value < w.speed * SLOWDOWN_STEP
                  && (u * SLOWDOWN_FRACTION <= after.slowTo.value <==> AtMost(p.StoppingDistance(u), room))
                  && AtMost(p.StoppingDistance(after.slowTo.value), room))
  {
    var p, room := w.profile, RoomIn(w, sweep, sqrt);
    AllowedIsUnder(p, room, MIN_SPEED_MPS, sqrt);
    AllowedIsUnder(p, room, w.speed * SLOWDOWN_STEP, sqrt);
    if room.Within? && 0.0 <= room.value {
      StopsWithinExactlyAtMaxSpeed(p, u, room, sqrt);
      var allowed := Scaled(p.MaxSpeed(room, sqrt), SLOWDOWN_FRACTION);
      MaxSpeedNonNegative(p, room, sqrt);
      StopsWithinExactlyAtMaxSpeed(p, allowed.value, room, sqrt);
    }
  }

  /** The rest of what a scan leaves: the room it showed and the least room yet. */
  lemma ScanNotesRoom(w: Watch, sweep: Sweep, measured: real, now: real, sqrt: real -> real)
    requires w.profile.Valid() && w.tripped.None? && Readable(sweep)
    ensures var after, room := Judged(w, sweep, measured, now, sqrt), RoomIn(w, sweep, sqrt);
            && after.lastRoom == Some(room) && after.minimumRoom.Some?
            && !Shorter(room, after.minimumRoom.value)
            && (w.minimumRoom.Some? ==> !Shorter(w.minimumRoom.value, after.minimumRoom.value))
            && (after.minimumRoom == Some(room) || after.minimumRoom == w.minimumRoom)
            && (after.tripped.Some? ==> after.slowTo.None?)
  {
  }

  /** A look trips exactly when no scan ever came, or the last one is older than a
      poll and than what the rates, the ceiling or the room allow. */
  lemma LookTripsExactlyWhen(w: Watch, age: Option<real>, measured: real, timing: Timing)
    requires w.profile.Valid() && w.tripped.None?
    ensures var after := Refreshed(w, age, measured, timing);
            && (after.tripped.None? ==> after == w)
            && (after.tripped.Some? ==> after.tripped == Some(TripStale) && after.slowTo.None?)
            && (after.tripped.None?
                <==> && age.Some?
                     && (|| age.value <= GUARD_POLL_S
                         || (&& (age.value <= timing.configured || Covers(15.0, timing.nominal, age.value)
                                 || Covers(3.0, timing.worst, age.value))
                             && age.value <= 2.0
                             && (w.lastRoom.Some? ==>
                                   AtMost(age.value, BlindTimeToFloor(w.profile, w.lastRoom.value, Max(w.speed, measured),
                                                                      GUARD_POLL_S))))))
  {
    hide ScanStaleLimit, BlindTimeToFloor, Covers;
    if age.Some? {
      StaleLimitExactlyWhen(STRAIGHT_STALENESS, timing.configured, timing.nominal, timing.worst, w.profile, w.lastRoom,
                            Max(w.speed, measured), GUARD_POLL_S, age.value);
    }
  }
}
