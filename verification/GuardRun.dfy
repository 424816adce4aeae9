/** Whole runs of a guarded straight drive past static returns: whatever the scan
    timing, a trip brings the robot to rest with nothing nearer than the floor. */
module GuardRun {
  import opened Wrappers
  import opened BrakingEnvelope
  import opened BrakingGuard

  /** A drive: its guard's profile and speed, the returns in the frame it starts
      in, and where the robot is along the heading at each moment. */
  datatype Drive = Drive(profile: BrakingProfile, speed: real, world: seq<Point>, path: real -> real,
                         armedAt: real, delivery: real, reaction: real)

  /** What reaches the guard: a scan taken at one moment and received later, or a
      waiter looking at the age of the last scan. */
  datatype Event =
    | Scan(taken: real, received: real, sweep: Sweep, scanSpeed: real)
    | Poll(at: real, pollSpeed: real, timing: Timing)

  /** The guard, when its last scan was received, and for the proof when the last
      scan it passed was taken and received, the last look, and the latest event. */
  datatype Run = Run(watch: Watch, seen: real, taken: real, received: real, polled: real, at: real)

  function When(e: Event): real {
    match e
    case Scan(_, received, _, _) => received
    case Poll(at, _, _) => at
  }

  function Seen(world: seq<Point>, s: real): seq<Point> {
    seq(|world|, i requires 0 <= i < |world| => Point(world[i].x - s, world[i].y))
  }

  function Step(r: Run, e: Event, sqrt: real -> real): Run
    requires r.watch.profile.Valid()
  {
    match e
    case Scan(taken, received, sweep, measured) =>
      var w := Judged(r.watch, sweep, Abs(measured), received, sqrt);
      if w.tripped.Some? then Run(w, received, r.taken, r.received, r.polled, received)
      else Run(w, received, taken, received, r.polled, received)
    case Poll(at, measured, timing) =>
      r.(watch := Refreshed(r.watch, Some(at - r.seen), Abs(measured), timing), polled := at, at := at)
  }

  /** The guard armed from the room of the sweep it starts with, received at
      `seen`, with the robot still where that sweep was taken. */
  predicate Armed(d: Drive, r: Run, sqrt: real -> real) {
    && r.watch.profile == d.profile && r.watch.speed == d.speed && r.watch.tripped.None? && !r.watch.resends
    && r.watch.lastRoom == Some(RoomOf(d.world, d.profile.floor, sqrt).room)
    && r.seen <= d.armedAt == r.taken == r.received == r.polled == r.at
  }

  /** Events come in order, a look at least every poll, scans show the static
      returns (or cannot be read) and are delivered within `delivery`. */
  predicate Follows(d: Drive, r: Run, e: Event) {
    && r.at <= When(e) <= r.polled + GUARD_POLL_S
    && (e.Scan? ==>
          && r.taken <= e.taken <= e.received <= e.taken + d.delivery
          && (e.sweep.Some? ==> e.sweep.value == Seen(d.world, d.path(e.taken))))
  }

  /** How far a robot at speed `v` braking at `a` has gone after `u` seconds. */
  function BrakeTravel(v: real, a: real, u: real): real
    requires 0.0 < a
  {
    if a * u <= v then v * u - a * u * u / 2.0 else v * v / (2.0 * a)
  }

  /** Never backward, at most the guard's speed until braking starts, and from
      there slowing at least as fast as the profile says. */
  ghost predicate Moves(d: Drive, braking: real)
    requires d.profile.Valid()
  {
    && d.path(d.armedAt) == 0.0
    && (forall t, u :: t <= u ==> d.path(t) <= d.path(u))
    && (forall t, u :: d.armedAt <= t <= u <= braking ==> HoldsSpeed(d, t, u))
    && (forall t :: braking <= t ==> Brakes(d, braking, t))
  }

  ghost predicate HoldsSpeed(d: Drive, t: real, u: real) {
    d.path(u) - d.path(t) <= d.speed * (u - t)
  }

  ghost predicate Brakes(d: Drive, braking: real, t: real)
    requires d.profile.Valid()
  {
    d.path(t) - d.path(braking) <= BrakeTravel(d.speed, d.profile.decel, t - braking)
  }

  /** The budget the drive is run under. */
  predicate WithinBudget(d: Drive) {
    && d.profile.Valid() && 0.0 <= d.profile.floor && 0.0 <= d.speed
    && 0.0 <= d.delivery && 0.0 <= d.reaction
    && d.delivery + d.reaction <= d.profile.latency - d.profile.credit
  }

  /** By how much two late looks can outlast the credit: a scan younger than one
      poll is not re-judged, so a quiet LiDAR is noticed up to two polls late. */
  function Overrun(p: BrakingProfile): real {
    Max(0.0, 2.0 * GUARD_POLL_S - p.credit)
  }

  /** Every return is clear at every distance up to `reach`. */
  ghost predicate ClearUpTo(world: seq<Point>, floor: real, reach: Extent) {
    forall p, s :: p in world && 0.0 <= s && AtMost(s, reach) ==> Clear(p, floor, s)
  }

  function Plus(s: real, e: Extent): Extent {
    match e
    case Unlimited => Unlimited
    case Within(m) => Within(s + m)
  }

  function RoomSeen(r: Run): Extent {
    r.watch.lastRoom.GetOr(Unlimited)
  }

  /** Kept by every event the guard lets pass: the last passed scan left the
      stopping distance and `spare` seconds at speed, and the next look is due
      before they and the allowance run out. */
  ghost predicate Holding(d: Drive, r: Run, spare: real)
    requires d.profile.Valid()
  {
    && InOrder(d, r)
    && (RoomSeen(r).Within? ==>
          && SpareFits(d, spare, RoomSeen(r).value)
          && r.polled + GUARD_POLL_S - r.received <= Allowance(d.profile) + spare)
  }

  ghost predicate SpareFits(d: Drive, spare: real, room: real)
    requires d.profile.Valid()
  {
    0.0 <= spare && d.profile.StoppingDistance(d.speed) + d.speed * spare <= room
  }

  ghost predicate InOrder(d: Drive, r: Run) {
    && r.watch.profile == d.profile && r.watch.speed == d.speed && r.watch.tripped.None? && !r.watch.resends
    && r.watch.lastRoom.Some?
    && d.armedAt <= r.taken <= r.received <= r.taken + d.delivery && r.received <= r.at
    && r.seen <= r.received && r.polled <= r.at <= r.polled + GUARD_POLL_S
  }

  /** How long after a passed scan a stop may still be decided with nothing to
      spare. */
  function Allowance(p: BrakingProfile): real {
    Max(p.credit, 2.0 * GUARD_POLL_S)
  }

  /** What a scan the guard lets pass says. */
  lemma PassedScanLeavesRoom(w: Watch, sweep: Sweep, measured: real, now: real, sqrt: real -> real)
    requires w.profile.Valid() && w.tripped.None? && Judged(w, sweep, measured, now, sqrt).tripped.None?
    ensures sweep.Some?
    ensures var after := Judged(w, sweep, measured, now, sqrt);
            var room := RoomOf(sweep.value, w.profile.floor, sqrt).room;
            && after.profile == w.profile && after.speed == w.speed && after.resends == w.resends
            && after.lastRoom == Some(room)
            && (room.Within? ==> w.profile.StoppingDistance(Max(w.speed, measured)) < room.value)
  {
  }

  /** What a look the guard lets pass says. */
  lemma PassedPollIsFresh(w: Watch, age: real, measured: real, timing: Timing)
    requires w.profile.Valid() && w.tripped.None? && w.lastRoom.Some?
    requires Refreshed(w, Some(age), measured, timing).tripped.None?
    ensures Refreshed(w, Some(age), measured, timing) == w
    ensures age <= GUARD_POLL_S
            || AtMost(age, BlindTimeToFloor(w.profile, w.lastRoom.value, Max(w.speed, measured), GUARD_POLL_S))
  {
  }

  lemma ArmedHolds(d: Drive, r: Run, sqrt: real -> real)
    requires WithinBudget(d) && Armed(d, r, sqrt)
    requires AtMost(d.profile.StoppingDistance(d.speed), RoomSeen(r))
    ensures Holding(d, r, 0.0)
  {
  }

  lemma ScanHolds(d: Drive, r: Run, spare: real, e: Event, sqrt: real -> real)
    requires WithinBudget(d) && Holding(d, r, spare) && Follows(d, r, e) && e.Scan?
    requires Step(r, e, sqrt).watch.tripped.None?
    ensures Holding(d, Step(r, e, sqrt), 0.0)
    ensures RoomSeen(Step(r, e, sqrt)) == RoomOf(Seen(d.world, d.path(e.taken)), d.profile.floor, sqrt).room
  {
    PassedScanLeavesRoom(r.watch, e.sweep, Abs(e.scanSpeed), e.received, sqrt);
    assert InOrder(d, Step(r, e, sqrt));
    LawGrows(d.speed, Max(d.speed, Abs(e.scanSpeed)), d.profile.latency, d.profile.decel);
  }

  lemma SpareKeepsStop(d: Drive, spare: real, room: real)
    requires d.profile.Valid() && 0.0 <= d.speed && SpareFits(d, spare, room)
    ensures d.profile.StoppingDistance(d.speed) <= room
  {
    MultipliedOrder(d.speed, 0.0, spare);
  }

  lemma BlindTimeGivesSpare(d: Drive, room: real, age: real, judged: real) returns (spareLeft: real)
    requires d.profile.Valid() && 0.0 <= d.speed <= judged && d.profile.StoppingDistance(d.speed) <= room
    requires AtMost(age, BlindTimeToFloor(d.profile, Within(room), judged, GUARD_POLL_S))
    ensures SpareFits(d, spareLeft, room) && age + GUARD_POLL_S <= d.profile.credit + spareLeft
  {
    BlindTimeLeavesRoom(d.profile, room, d.speed, judged, GUARD_POLL_S, age);
    spareLeft := Max(0.0, age + GUARD_POLL_S - d.profile.PeriodCredit());
  }

  lemma LookHolds(d: Drive, r: Run, spare: real, at: real, spareLeft: real)
    requires WithinBudget(d) && Holding(d, r, spare) && r.at <= at <= r.polled + GUARD_POLL_S
    requires RoomSeen(r).Within? ==> SpareFits(d, spareLeft, RoomSeen(r).value)
    requires RoomSeen(r).Within? ==> at + GUARD_POLL_S - r.received <= Allowance(d.profile) + spareLeft
    ensures Holding(d, r.(polled := at, at := at), spareLeft)
  {
  }

  lemma PollHolds(d: Drive, r: Run, spare: real, e: Event) returns (spareLeft: real)
    requires WithinBudget(d) && Holding(d, r, spare) && Follows(d, r, e) && e.Poll?
    requires Refreshed(r.watch, Some(e.at - r.seen), Abs(e.pollSpeed), e.timing).tripped.None?
    ensures Holding(d, r.(polled := e.at, at := e.at), spareLeft)
  {
    var age := e.at - r.seen;
    PassedPollIsFresh(r.watch, age, Abs(e.pollSpeed), e.timing);
    spareLeft := spare;
    if RoomSeen(r).Within? && age > GUARD_POLL_S {
      SpareKeepsStop(d, spare, RoomSeen(r).value);
      spareLeft := BlindTimeGivesSpare(d, RoomSeen(r).value, age, Max(d.speed, Abs(e.pollSpeed)));
    }
    LookHolds(d, r, spare, e.at, spareLeft);
  }

  lemma OneEventHolds(d: Drive, r: Run, spare: real, e: Event, sqrt: real -> real) returns (spareLeft: real)
    requires WithinBudget(d) && Holding(d, r, spare) && Follows(d, r, e)
    requires Step(r, e, sqrt).watch.tripped.None?
    ensures Holding(d, Step(r, e, sqrt), spareLeft)
  {
    if e.Scan? {
      ScanHolds(d, r, spare, e, sqrt);
      spareLeft := 0.0;
    } else {
      PassedPollIsFresh(r.watch, e.at - r.seen, Abs(e.pollSpeed), e.timing);
      spareLeft := PollHolds(d, r, spare, e);
    }
  }

  lemma BrakeTravelBounded(v: real, a: real, u: real)
    requires 0.0 < a && 0.0 <= v && 0.0 <= u
    ensures BrakeTravel(v, a, u) <= v * v / (2.0 * a)
  {
    if a * u <= v {
      // v^2/2a - (vu - au^2/2) == (v - au)^2 / 2a
      var x := Quotient(v * v, 2.0 * a);
      var gap := v - a * u;
      assert 0.0 <= gap * gap;
      assert gap * gap == v * v - 2.0 * a * (v * u) + a * a * (u * u);
      assert 2.0 * a * (v * u - a * u * u / 2.0) == 2.0 * a * (v * u) - a * a * (u * u);
      ScaleOrder(2.0 * a, v * u - a * u * u / 2.0, x);
    }
  }

  /** The travel at speed before braking, term by term. */
  lemma HeldTravel(v: real, held: real, latency: real, over: real, spare: real)
    requires 0.0 <= v && held <= latency + spare + over
    ensures v * held <= v * latency + v * spare + v * over
  {
    MultipliedOrder(v, held, latency + spare + over);
    Distribute(v, latency + spare, over);
    Distribute(v, latency, spare);
  }

  lemma BrakingTravel(d: Drive, braking: real, t: real)
    requires d.profile.Valid() && 0.0 <= d.speed && (braking <= t ==> Brakes(d, braking, t))
    requires t <= braking ==> d.path(t) <= d.path(braking)
    ensures d.path(t) - d.path(braking) <= d.speed * d.speed / (2.0 * d.profile.decel)
  {
    if braking <= t {
      BrakeTravelBounded(d.speed, d.profile.decel, t - braking);
    } else {
      BrakeTravelBoundedAtZero(d.speed, d.profile.decel);
    }
  }

  /** Travel from where the last passed scan was taken to rest, for a stop decided
      before the next look is due. */
  lemma TravelToRest(d: Drive, r: Run, spare: real, decided: real, t: real)
    requires WithinBudget(d) && Holding(d, r, spare) && RoomSeen(r).Within?
    requires r.received <= decided <= r.polled + GUARD_POLL_S
    requires Moves(d, decided + d.reaction)
    ensures d.path(t) <= d.path(r.taken) + RoomSeen(r).value + d.speed * Overrun(d.profile)
  {
    var braking := decided + d.reaction;
    assert HoldsSpeed(d, r.taken, braking);
    assert braking <= t ==> Brakes(d, braking, t);
    BrakingTravel(d, braking, t);
    TravelAdds(d, r, spare, braking, d.path(t) - d.path(braking));
  }

  lemma TravelAdds(d: Drive, r: Run, spare: real, braking: real, brake: real)
    requires WithinBudget(d) && Holding(d, r, spare) && RoomSeen(r).Within?
    requires braking <= r.polled + GUARD_POLL_S + d.reaction && HoldsSpeed(d, r.taken, braking)
    requires brake <= d.speed * d.speed / (2.0 * d.profile.decel)
    ensures d.path(braking) + brake <= d.path(r.taken) + RoomSeen(r).value + d.speed * Overrun(d.profile)
  {
    StopAdds(d.speed, d.profile.latency, d.profile.decel, braking - r.taken, spare, Overrun(d.profile),
             RoomSeen(r).value, d.path(braking) - d.path(r.taken), brake);
  }

  lemma StopAdds(v: real, t: real, a: real, held: real, spare: real, over: real, room: real, hold: real, brake: real)
    requires 0.0 < a && 0.0 <= v && StoppingLaw(v, t, a) + v * spare <= room
    requires held <= t + spare + over
    requires hold <= v * held && brake <= v * v / (2.0 * a)
    ensures hold + brake <= room + v * over
  {
    HeldTravel(v, held, t, over, spare);
  }

  lemma BrakeTravelBoundedAtZero(v: real, a: real)
    requires 0.0 < a && 0.0 <= v
    ensures 0.0 <= v * v / (2.0 * a)
  {
    BrakeTravelBounded(v, a, 0.0);
    assert a * 0.0 == 0.0 && v * 0.0 == 0.0;
  }

  /** Events the guard let pass, one after another. */
  ghost predicate Passed(d: Drive, r: Run, events: seq<Event>, sqrt: real -> real)
    requires r.watch.profile.Valid()
    decreases events
  {
    if events == [] then true
    else
      && Follows(d, r, events[0])
      && Step(r, events[0], sqrt).watch.tripped.None?
      && Passed(d, Step(r, events[0], sqrt), events[1..], sqrt)
  }

  function After(r: Run, events: seq<Event>, sqrt: real -> real): (after: Run)
    requires r.watch.profile.Valid()
    ensures after.watch.profile == r.watch.profile
    decreases events
  {
    if events == [] then r else After(Step(r, events[0], sqrt), events[1..], sqrt)
  }

  /** Whatever the budget's credit, the robot travels at most the overrun past the
      room the last passed scan showed. */
  lemma {:induction false} StopsWithinOverrun(d: Drive, r: Run, spare: real, events: seq<Event>, trip: Event, t: real,
                                              sqrt: real -> real)
    requires WithinBudget(d) && Holding(d, r, spare) && Passed(d, r, events, sqrt)
    requires var last := After(r, events, sqrt);
             && Follows(d, last, trip) && Step(last, trip, sqrt).watch.tripped.Some?
             && Moves(d, When(trip) + d.reaction)
    ensures var last := After(r, events, sqrt);
            RoomSeen(last).Within? ==>
              d.path(t) <= d.path(last.taken) + RoomSeen(last).value + d.speed * Overrun(d.profile)
    decreases events
  {
    if events == [] {
      if RoomSeen(r).Within? {
        TravelToRest(d, r, spare, When(trip), t);
      }
    } else {
      var spareLeft := OneEventHolds(d, r, spare, events[0], sqrt);
      StopsWithinOverrun(d, Step(r, events[0], sqrt), spareLeft, events[1..], trip, t, sqrt);
    }
  }

  // ---------------------------------------------------------------------------
  // Clearance over a whole run
  // ---------------------------------------------------------------------------

  lemma RangeFromFarther(p: Point, q: real, s: real)
    ensures RangeSquared(Point(p.x - q, p.y), s) == RangeSquared(p, q + s)
  {
  }

  /** A sweep judged at distance `q` extends what is known to be clear by the room
      it shows. */
  lemma SweepExtendsClear(world: seq<Point>, floor: real, reach: Extent, q: real, sqrt: real -> real)
    requires IsSqrt(sqrt) && 0.0 <= floor && 0.0 <= q && AtMost(q, reach) && ClearUpTo(world, floor, reach)
    ensures ClearUpTo(world, floor, Plus(q, RoomOf(Seen(world, q), floor, sqrt).room))
  {
    var farther := Plus(q, RoomOf(Seen(world, q), floor, sqrt).room);
    forall p, s | p in world && 0.0 <= s && AtMost(s, farther)
      ensures Clear(p, floor, s)
    {
      assert Clear(p, floor, q);
      if s <= q {
        assert AtMost(s, reach);
      } else {
        var i :| 0 <= i < |world| && world[i] == p;
        var shifted := Point(p.x - q, p.y);
        assert Seen(world, q)[i] == shifted;
        ClearWithinRoom(Seen(world, q), floor, s - q, sqrt);
        assert Clear(shifted, floor, s - q);
        RangeFromFarther(p, q, s - q);
        RangeFromFarther(p, q, 0.0);
      }
    }
  }

  lemma StartIsClear(d: Drive, r: Run, sqrt: real -> real)
    requires IsSqrt(sqrt) && WithinBudget(d) && Armed(d, r, sqrt)
    ensures ClearUpTo(d.world, d.profile.floor, RoomSeen(r))
  {
    forall p, s | p in d.world && 0.0 <= s && AtMost(s, RoomSeen(r))
      ensures Clear(p, d.profile.floor, s)
    {
      ClearWithinRoom(d.world, d.profile.floor, s, sqrt);
    }
  }

  /** The next scan is taken before the room the last one showed is used up. */
  lemma NextScanInReach(d: Drive, r: Run, spare: real, e: Event, braking: real)
    requires WithinBudget(d) && 2.0 * GUARD_POLL_S <= d.profile.credit
    requires Holding(d, r, spare) && Follows(d, r, e) && e.Scan?
    requires Moves(d, braking) && e.received <= braking
    ensures 0.0 <= d.path(e.taken) && AtMost(d.path(e.taken), Plus(d.path(r.taken), RoomSeen(r)))
  {
    assert d.path(d.armedAt) <= d.path(e.taken);
    if RoomSeen(r).Within? {
      assert HoldsSpeed(d, r.taken, e.taken);
      BrakeTravelBoundedAtZero(d.speed, d.profile.decel);
      TravelAdds(d, r, spare, e.taken, 0.0);
    }
  }

  lemma {:induction false} EventsInOrder(d: Drive, r: Run, events: seq<Event>, last: Event, sqrt: real -> real)
    requires r.watch.profile.Valid() && Passed(d, r, events, sqrt) && Follows(d, After(r, events, sqrt), last)
    ensures r.at <= When(last)
    decreases events
  {
    if events != [] {
      EventsInOrder(d, Step(r, events[0], sqrt), events[1..], last, sqrt);
    }
  }

  /** A passed scan or look leaves the robot clear as far as the room it shows. */
  lemma StepKeepsClear(d: Drive, r: Run, spare: real, e: Event, braking: real, sqrt: real -> real)
    requires IsSqrt(sqrt) && WithinBudget(d) && 2.0 * GUARD_POLL_S <= d.profile.credit && Holding(d, r, spare)
    requires Follows(d, r, e) && Step(r, e, sqrt).watch.tripped.None? && Moves(d, braking) && When(e) <= braking
    requires ClearUpTo(d.world, d.profile.floor, Plus(d.path(r.taken), RoomSeen(r)))
    ensures var next := Step(r, e, sqrt); ClearUpTo(d.world, d.profile.floor, Plus(d.path(next.taken), RoomSeen(next)))
  {
    if e.Scan? {
      ScanHolds(d, r, spare, e, sqrt);
      NextScanInReach(d, r, spare, e, braking);
      SweepExtendsClear(d.world, d.profile.floor, Plus(d.path(r.taken), RoomSeen(r)), d.path(e.taken), sqrt);
    } else {
      PassedPollIsFresh(r.watch, e.at - r.seen, Abs(e.pollSpeed), e.timing);
    }
  }

  /** Over every run of scans and looks that ends in a trip, and however the scans
      were timed, no return ever comes nearer than the smaller of the floor and
      the range it started at: on the way, while braking, and at rest. */
  lemma {:induction false} TrippedRunStaysClear(d: Drive, r: Run, spare: real, events: seq<Event>, trip: Event, t: real,
                                                sqrt: real -> real)
    requires IsSqrt(sqrt) && WithinBudget(d) && 2.0 * GUARD_POLL_S <= d.profile.credit
    requires Holding(d, r, spare) && Passed(d, r, events, sqrt)
    requires ClearUpTo(d.world, d.profile.floor, Plus(d.path(r.taken), RoomSeen(r)))
    requires var last := After(r, events, sqrt);
             && Follows(d, last, trip) && Step(last, trip, sqrt).watch.tripped.Some?
             && Moves(d, When(trip) + d.reaction)
    requires d.armedAt <= t
    ensures forall p :: p in d.world ==> Clear(p, d.profile.floor, d.path(t))
    decreases events
  {
    assert d.path(d.armedAt) <= d.path(t);
    if events == [] {
      if RoomSeen(r).Within? {
        TravelToRest(d, r, spare, When(trip), t);
      }
      assert AtMost(d.path(t), Plus(d.path(r.taken), RoomSeen(r)));
    } else {
      var next := Step(r, events[0], sqrt);
      var spareLeft := OneEventHolds(d, r, spare, events[0], sqrt);
      EventsInOrder(d, next, events[1..], trip, sqrt);
      StepKeepsClear(d, r, spare, events[0], When(trip) + d.reaction, sqrt);
      hide Follows, ClearUpTo, Clear, Holding, Moves;
      TrippedRunStaysClear(d, next, spareLeft, events[1..], trip, t, sqrt);
    }
  }

  /** How a guarded drive ends: stopped by its guard, or by itself at the distance
      it was planned with. */
  datatype Ending = GuardTripped(trip: Event) | PlannedStop

  ghost predicate Ends(d: Drive, r: Run, events: seq<Event>, plan: DrivePlan, ending: Ending, sqrt: real -> real)
    requires r.watch.profile.Valid() && d.profile.Valid()
  {
    match ending
    case GuardTripped(trip) =>
      && Passed(d, r, events, sqrt)
      && Follows(d, After(r, events, sqrt), trip) && Step(After(r, events, sqrt), trip, sqrt).watch.tripped.Some?
      && Moves(d, When(trip) + d.reaction)
    case PlannedStop =>
      && (forall t, u :: t <= u ==> d.path(t) <= d.path(u)) && d.path(d.armedAt) == 0.0
      && (forall t :: d.path(t) <= plan.distance + d.profile.StoppingDistance(plan.speed))
  }

  /** End to end: a drive planned from the room its sweep measured, watched by its
      guard, comes to rest with every return at or beyond the floor that was not
      already inside it, however it ends. */
  lemma PlannedDriveNeverBreachesFloor(d: Drive, r: Run, requestedSpeed: real, requestedDistance: real, fraction: real,
                                       events: seq<Event>, ending: Ending, t: real, sqrt: real -> real)
    requires IsSqrt(sqrt) && WithinBudget(d) && 2.0 * GUARD_POLL_S <= d.profile.credit && 0.0 < fraction <= 1.0
    requires Armed(d, r, sqrt) && d.armedAt <= t
    requires var plan := PlanDrive(d.profile, RoomSeen(r), requestedSpeed, requestedDistance, PlannedBeforeSend, fraction, sqrt);
             && plan.refusal.None? && plan.speed == d.speed
             && Ends(d, r, events, plan, ending, sqrt)
    ensures forall p :: p in d.world ==> Clear(p, d.profile.floor, d.path(t))
    ensures forall p :: p in d.world && RangeSquared(p, 0.0) >= Square(d.profile.floor) ==>
              RangeSquared(p, d.path(t)) >= Square(d.profile.floor)
  {
    AcceptedPlanFits(d.profile, RoomSeen(r), requestedSpeed, requestedDistance, PlannedBeforeSend, fraction, sqrt);
    match ending
    case GuardTripped(trip) =>
      StopWithinPlan(d, RoomSeen(r), requestedSpeed, requestedDistance, fraction, sqrt);
      ArmedHolds(d, r, sqrt);
      StartIsClear(d, r, sqrt);
      assert d.path(r.taken) == 0.0 && Plus(0.0, RoomSeen(r)) == RoomSeen(r);
      TrippedRunStaysClear(d, r, 0.0, events, trip, t, sqrt);
    case PlannedStop =>
      assert d.path(d.armedAt) <= d.path(t);
      PlannedDriveStaysClear(d.profile, d.world, requestedSpeed, requestedDistance, fraction, sqrt, d.path(t));
  }

  lemma StopWithinPlan(d: Drive, room: Extent, requestedSpeed: real, requestedDistance: real, fraction: real,
                       sqrt: real -> real)
    requires IsSqrt(sqrt) && d.profile.Valid() && 0.0 < fraction <= 1.0
    requires var plan := PlanDrive(d.profile, room, requestedSpeed, requestedDistance, PlannedBeforeSend, fraction, sqrt);
             plan.refusal.None? && plan.speed == d.speed
    ensures AtMost(d.profile.StoppingDistance(d.speed), room)
  {
    AcceptedPlanFits(d.profile, room, requestedSpeed, requestedDistance, PlannedBeforeSend, fraction, sqrt);
  }

  // ---------------------------------------------------------------------------
  // The credit of two polls is needed
  // ---------------------------------------------------------------------------

  /** A robot at 1 m/s that brakes from `braking` on, exactly as hard as `a`. */
  function PathAtOne(a: real, braking: real, t: real): real
    requires 0.0 < a
  {
    if t <= 0.0 then 0.0 else if t <= braking then t else braking + BrakeTravel(1.0, a, t - braking)
  }

  /** Until it has stopped, a braking robot at 1 m/s only moves forward. */
  lemma TravelRises(a: real, u: real, w: real)
    requires 0.0 < a && 0.0 <= u <= w && a * w <= 1.0
    ensures u - a * u * u / 2.0 <= w - a * w * w / 2.0
  {
    // the difference is (w - u) (1 - a (u + w) / 2)
    var mean := 1.0 - (a * u + a * w) / 2.0;
    assert a * u <= a * w by { MultipliedOrder(a, u, w); }
    assert 0.0 <= (w - u) * mean by {
      MultipliedOrder(w - u, 0.0, mean);
      assert (w - u) * 0.0 == 0.0;
    }
    assert (w - u) * mean == (w - a * w * w / 2.0) - (u - a * u * u / 2.0);
  }

  lemma BrakeTravelIsNonNegative(a: real, u: real)
    requires 0.0 < a && 0.0 <= u
    ensures 0.0 <= BrakeTravel(1.0, a, u)
  {
    if a * u <= 1.0 {
      TravelRises(a, 0.0, u);
      assert a * 0.0 * 0.0 == 0.0;
    } else {
      BrakeTravelBoundedAtZero(1.0, a);
    }
  }

  lemma BrakeTravelGrows(a: real, u: real, w: real)
    requires 0.0 < a && 0.0 <= u <= w
    ensures 0.0 <= BrakeTravel(1.0, a, u) <= BrakeTravel(1.0, a, w)
  {
    BrakeTravelIsNonNegative(a, u);
    BrakeTravelBounded(1.0, a, u);
    assert a * u <= a * w by { MultipliedOrder(a, u, w); }
    if a * w <= 1.0 {
      TravelRises(a, u, w);
    }
  }

  lemma PathAtOneMoves(d: Drive, braking: real)
    requires d.profile.Valid() && d.speed == 1.0 && d.armedAt == 0.0 && 0.0 <= braking
    requires forall t :: d.path(t) == PathAtOne(d.profile.decel, braking, t)
    ensures Moves(d, braking)
  {
    var a := d.profile.decel;
    BrakeTravelGrows(a, 0.0, 0.0);
    assert BrakeTravel(1.0, a, 0.0) == 0.0;
    forall t, u | t <= u
      ensures d.path(t) <= d.path(u)
    {
      if braking <= u {
        BrakeTravelGrows(a, if t <= braking then 0.0 else t - braking, u - braking);
      }
    }
    forall t, u | d.armedAt <= t <= u <= braking
      ensures HoldsSpeed(d, t, u)
    {
    }
    forall t | braking <= t
      ensures Brakes(d, braking, t)
    {
    }
  }

  /** For every profile whose credit is under two polls there is a drive, within
      its budget in every other way, whose stale trip leaves a return nearer than
      the floor: a scan younger than one poll is not re-judged, and the next look
      comes a poll later. */
  lemma CreditUnderTwoPollsBreaches(p: BrakingProfile, sqrt: real -> real)
    returns (d: Drive, r: Run, events: seq<Event>, trip: Event, t: real)
    requires IsSqrt(sqrt) && p.Valid() && 0.0 < p.floor && p.credit <= p.latency
    requires p.credit < 2.0 * GUARD_POLL_S
    ensures d.profile == p && WithinBudget(d) && Armed(d, r, sqrt) && d.armedAt <= t
    ensures AtMost(p.StoppingDistance(d.speed), RoomSeen(r)) && Passed(d, r, events, sqrt)
    ensures var last := After(r, events, sqrt);
            && Follows(d, last, trip) && Step(last, trip, sqrt).watch.tripped == Some(TripStale)
            && Moves(d, When(trip) + d.reaction)
    ensures exists q :: q in d.world && !Clear(q, p.floor, d.path(t))
  {
    var over := 2.0 * GUARD_POLL_S - p.credit;
    var slack := over - Min(over, p.floor) / 2.0;
    var stop := p.StoppingDistance(1.0);
    var half := Quotient(1.0, 2.0 * p.decel);
    assert stop == p.latency + half && 0.0 < half by { ScaleOrder(2.0 * p.decel, half, 0.0); }
    var q := Point(p.floor + stop + slack, 0.0);
    var reaction := p.latency - p.credit;
    var braking := 2.0 * GUARD_POLL_S + reaction;
    d := Drive(p, 1.0, [q], (t: real) => PathAtOne(p.decel, braking, t), 0.0, 0.0, reaction);
    var room := RoomOfOne(q, p.floor, sqrt);
    var timing := Timing(0.5, None, None);
    r := Run(Watch(p, 1.0, false, None, None, 0.0, Some(room), None), 0.0, 0.0, 0.0, 0.0, 0.0);
    events := [Poll(GUARD_POLL_S, 0.0, timing)];
    trip := Poll(2.0 * GUARD_POLL_S, 0.0, timing);
    t := braking + 2.0 * half;
    assert After(r, events, sqrt) == r.(polled := GUARD_POLL_S, at := GUARD_POLL_S) by {
      assert events[1..] == [];
    }
    assert Passed(d, r, events, sqrt) by {
      assert events[1..] == [];
    }
    LimitIsShort(p, slack, timing, room);
    PathAtOneMoves(d, braking);
    AtRest(p.decel, half);
    assert d.path(t) == braking + half;
    TooNear(q, p.floor, d.path(t));
  }

  /** A run within the budget, from arming through what the guard let pass to its trip. */
  ghost predicate RunsToTrip(d: Drive, r: Run, events: seq<Event>, trip: Event, sqrt: real -> real) {
    && WithinBudget(d) && Armed(d, r, sqrt) && AtMost(d.profile.StoppingDistance(d.speed), RoomSeen(r))
    && Passed(d, r, events, sqrt)
    && Follows(d, After(r, events, sqrt), trip) && Step(After(r, events, sqrt), trip, sqrt).watch.tripped.Some?
    && Moves(d, When(trip) + d.reaction)
  }

  ghost predicate ClearAt(d: Drive, t: real) {
    forall q :: q in d.world ==> Clear(q, d.profile.floor, d.path(t))
  }

  /** Whatever the drive, the returns and the timing of scans and looks, a tripped
      run never has a return nearer than the floor or its range at the start. */
  ghost predicate StopsClear(p: BrakingProfile, sqrt: real -> real) {
    forall d: Drive, r, events, trip, t :: d.profile == p && RunsToTrip(d, r, events, trip, sqrt) && d.armedAt <= t ==>
      ClearAt(d, t)
  }

  /** Every run of a profile stays clear if and only if its credit covers two polls,
      or it has no floor to keep or no time left of its latency beyond the credit. */
  lemma RunsStayClearExactlyWhen(p: BrakingProfile, sqrt: real -> real)
    requires IsSqrt(sqrt) && p.Valid()
    ensures StopsClear(p, sqrt) <==> 2.0 * GUARD_POLL_S <= p.credit || p.floor <= 0.0 || p.latency < p.credit
  {
    if 2.0 * GUARD_POLL_S <= p.credit || p.floor <= 0.0 || p.latency < p.credit {
      forall d: Drive, r, events, trip, t | d.profile == p && RunsToTrip(d, r, events, trip, sqrt) && d.armedAt <= t
        ensures ClearAt(d, t)
      {
        RunStaysClear(d, r, events, trip, t, sqrt);
      }
    } else {
      var d, r, events, trip, t := CreditUnderTwoPollsBreaches(p, sqrt);
      assert RunsToTrip(d, r, events, trip, sqrt) && !ClearAt(d, t);
    }
  }

  lemma RunStaysClear(d: Drive, r: Run, events: seq<Event>, trip: Event, t: real, sqrt: real -> real)
    requires IsSqrt(sqrt) && RunsToTrip(d, r, events, trip, sqrt) && d.armedAt <= t
    requires 2.0 * GUARD_POLL_S <= d.profile.credit || d.profile.floor <= 0.0
    ensures ClearAt(d, t)
  {
    hide Passed, After, Follows, Step, Moves, Clear;
    if d.profile.floor <= 0.0 {
      forall q | q in d.world
        ensures Clear(q, d.profile.floor, d.path(t))
      {
        NoFloorIsClear(q, d.path(t));
      }
    } else {
      ArmedHolds(d, r, sqrt);
      StartIsClear(d, r, sqrt);
      StartsAtZero(d, r, sqrt, When(trip) + d.reaction);
      TrippedRunStaysClear(d, r, 0.0, events, trip, t, sqrt);
    }
  }

  lemma StartsAtZero(d: Drive, r: Run, sqrt: real -> real, braking: real)
    requires d.profile.Valid() && Armed(d, r, sqrt) && Moves(d, braking)
    ensures d.path(r.taken) == 0.0 && Plus(d.path(r.taken), RoomSeen(r)) == RoomSeen(r)
  {
  }

  lemma NoFloorIsClear(q: Point, s: real)
    ensures Clear(q, 0.0, s)
  {
    assert 0.0 <= Square(q.x - s) && 0.0 <= Square(q.y) && Square(0.0) == 0.0;
  }

  lemma RoomOfOne(q: Point, floor: real, sqrt: real -> real) returns (room: Extent)
    requires IsSqrt(sqrt) && 0.0 < floor < q.x && q.y == 0.0
    ensures room == RoomOf([q], floor, sqrt).room == Within(q.x - floor)
  {
    room := RoomOf([q], floor, sqrt).room;
    var h := sqrt(floor * floor - q.y * q.y);
    assert q.y * q.y == 0.0;
    SquareOrder(h, floor);
    SquareOrder(floor, h);
    assert [q][..0] == [];
  }

  lemma LimitIsShort(p: BrakingProfile, slack: real, timing: Timing, room: Extent)
    requires p.Valid() && 0.0 < slack < 2.0 * GUARD_POLL_S - p.credit
    requires room == Within(p.StoppingDistance(1.0) + slack)
    ensures ScanStaleLimit(STRAIGHT_STALENESS, timing.configured, timing.nominal, timing.worst, p, Some(room), 1.0, GUARD_POLL_S)
            < 2.0 * GUARD_POLL_S
  {
  }

  lemma AtRest(a: real, half: real)
    requires 0.0 < a && half == 1.0 / (2.0 * a)
    ensures BrakeTravel(1.0, a, 2.0 * half) == half
  {
    assert (2.0 * a) * half == 1.0;
    assert a * (2.0 * half) * (2.0 * half) / 2.0 == half;
  }

  lemma TooNear(q: Point, floor: real, s: real)
    requires 0.0 < floor < q.x && q.y == 0.0 && q.x - floor < s < q.x
    ensures !Clear(q, floor, s)
  {
    SquareOrder(floor, q.x - s);
    SquareOrder(floor, q.x);
    assert q.y * q.y == 0.0;
  }
}
