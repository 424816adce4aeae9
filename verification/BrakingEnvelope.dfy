/** Stopping distances, measured room and planned drives
    (flyto_robotics/braking_envelope.py).

    Speeds, distances and times are exact reals. `math.inf` is `Unlimited`, an
    unreadable sweep is `None`, and a return is a point in the frame of travel
    (x along the drive), so no trigonometry is involved. The square root is a
    function handed in and known only by its defining equation. */
module BrakingEnvelope {
  import opened Wrappers

  const MIN_SPEED_MPS := 0.02
  const MIN_DISTANCE_M := 0.01
  const LATENCY_LOW_S := 0.05
  const LATENCY_HIGH_S := 3.0
  const DECEL_LOW_MPS2 := 0.05
  const DECEL_HIGH_MPS2 := 5.0

  /** A distance or a speed that may be infinite. */
  datatype Extent = Unlimited | Within(value: real)

  /** A LiDAR return, x along the direction of travel. */
  datatype Point = Point(x: real, y: real)

  /** A distance, and the return it was computed from if one was. */
  datatype Room = Room(room: Extent, limiting: Option<Point>)

  datatype Mode = PreemptiveResend | PlannedBeforeSend

  datatype Refusal = CannotStop | TooShort

  datatype DrivePlan = DrivePlan(speed: real, distance: real, shortened: bool, refusal: Option<Refusal>)

  datatype LatencyBudget = LatencyBudget(scanPeriod: real, scanTransport: real, commandTransport: real,
                                         controlPeriod: real, actuation: real) {
    function Total(): real {
      scanPeriod + scanTransport + commandTransport + controlPeriod + actuation
    }
  }

  datatype ScanStalePolicy = ScanStalePolicy(missedPeriods: real, worstIntervalMultiple: real,
                                             ceiling: Option<real>, floorBound: bool)

  ghost predicate IsSqrt(sqrt: real -> real) {
    forall x :: x >= 0.0 ==> sqrt(x) >= 0.0 && sqrt(x) * sqrt(x) == x
  }

  function Abs(x: real): real {
    if x < 0.0 then -x else x
  }

  function Min(a: real, b: real): real {
    if b < a then b else a
  }

  function Max(a: real, b: real): real {
    if b > a then b else a
  }

  function Clamp(value: real, low: real, high: real): real {
    Min(high, Max(low, value))
  }

  predicate AtMost(x: real, e: Extent) {
    e.Unlimited? || x <= e.value
  }

  /** Hold `v` through the latency `t`, then brake at `a`. */
  function StoppingLaw(v: real, t: real, a: real): real
    requires 0.0 < a
  {
    v * t + v * v / (2.0 * a)
  }

  datatype BrakingProfile = BrakingProfile(floor: real, latency: real, decel: real, credit: real) {

    predicate Valid() {
      0.0 <= latency && 0.0 < decel && 0.0 <= credit
    }

    /** The stopping law of this profile, whatever the sign of the speed. */
    function StoppingDistance(speed: real): real
      requires Valid()
    {
      StoppingLaw(Abs(speed), latency, decel)
    }

    /** The root of the stopping law at `room`; zero where there is none. */
    function MaxSpeed(room: Extent, sqrt: real -> real): Extent
      requires Valid()
    {
      match room
      case Unlimited => Unlimited
      case Within(m) =>
        if m <= 0.0 then Within(0.0)
        else Within(decel * (-latency + sqrt(Radicand(m))))
    }

    function Radicand(m: real): real
      requires Valid()
    {
      latency * latency + 2.0 * m / decel
    }

    /** The credit, never negative. */
    function PeriodCredit(): real {
      Max(0.0, credit)
    }
  }

  // ---------------------------------------------------------------------------
  // The stopping law and its inverse
  // ---------------------------------------------------------------------------

  lemma PositiveProduct(x: real, y: real)
    requires 0.0 < x && 0.0 < y
    ensures 0.0 < x * y
  {
  }

  lemma ScaleOrder(a: real, x: real, y: real)
    requires 0.0 < a
    ensures x <= y <==> a * x <= a * y
  {
    if x <= y {
      assert 0.0 <= a * (y - x);
    } else {
      assert 0.0 < a * (x - y);
    }
  }

  lemma SquareOrder(a: real, b: real)
    requires 0.0 <= a && 0.0 <= b
    ensures a <= b <==> a * a <= b * b
  {
    assert (b - a) * (b + a) == b * b - a * a;
    if a <= b {
      assert 0.0 <= (b - a) * (b + a);
    } else {
      PositiveProduct(a - b, a + b);
      assert (a - b) * (a + b) == a * a - b * b;
    }
  }

  lemma MultipliedOrder(a: real, x: real, y: real)
    requires 0.0 <= a && x <= y
    ensures a * x <= a * y
  {
    assert 0.0 <= a * (y - x);
  }

  lemma Quotient(x: real, a: real) returns (q: real)
    requires 0.0 < a
    ensures q == x / a && x == a * q
  {
    q := x / a;
  }

  /** With w = v/a and r the root, v*t + v^2/2a <= room says (w + t)^2 <= r^2. */
  lemma CompletedSquare(w: real, t: real, q: real, r: real)
    requires 0.0 <= w && 0.0 <= t && 0.0 <= r && r * r == t * t + 2.0 * q
    ensures w * t + w * w / 2.0 <= q <==> w <= -t + r
  {
    SquareOrder(w + t, r);
    assert (w + t) * (w + t) == w * w + 2.0 * (w * t) + t * t;
  }

  lemma LawScaled(w: real, t: real, a: real)
    requires 0.0 < a
    ensures StoppingLaw(a * w, t, a) == a * (w * t + w * w / 2.0)
  {
    var v := a * w;
    var x := a * (w * w / 2.0);
    assert v * v == (2.0 * a) * x;
    assert v * v / (2.0 * a) == x;
    assert v * t == a * (w * t);
  }

  lemma LawInverse(v: real, t: real, a: real, m: real, r: real)
    requires 0.0 < a && 0.0 <= v && 0.0 <= t && 0.0 <= r && r * r == t * t + 2.0 * m / a
    ensures StoppingLaw(v, t, a) <= m <==> v <= a * (-t + r)
  {
    var w := Quotient(v, a);
    var q := Quotient(m, a);
    assert 0.0 <= w;
    assert r * r == t * t + 2.0 * q by { assert 2.0 * m / a == 2.0 * q; }
    LawScaled(w, t, a);
    ScaleOrder(a, w * t + w * w / 2.0, q);
    CompletedSquare(w, t, q, r);
    ScaleOrder(a, w, -t + r);
  }

  lemma LawGrows(v: real, u: real, t: real, a: real)
    requires 0.0 < a && 0.0 <= v <= u && 0.0 <= t
    ensures 0.0 <= StoppingLaw(v, t, a) <= StoppingLaw(u, t, a)
  {
    MultipliedOrder(t, v, u);
    SquareOrder(v, u);
    var x := Quotient(v * v, 2.0 * a);
    var y := Quotient(u * u, 2.0 * a);
    ScaleOrder(2.0 * a, x, y);
    ScaleOrder(2.0 * a, 0.0, x);
  }

  /** The inverse is exact: a speed stops within the room exactly when it is at
      most the fastest one. */
  lemma StopsWithinExactlyAtMaxSpeed(p: BrakingProfile, v: real, room: Extent, sqrt: real -> real)
    requires p.Valid() && IsSqrt(sqrt)
    requires 0.0 <= v && (room.Within? ==> 0.0 <= room.value)
    ensures AtMost(p.StoppingDistance(v), room) <==> AtMost(v, p.MaxSpeed(room, sqrt))
  {
    if room.Within? && room.value == 0.0 {
      ZeroRoom(v, p.latency, p.decel);
    } else if room.Within? {
      var r := Root(p, room.value, sqrt);
      FitsByRoot(p, v, room.value, sqrt, r);
    }
  }

  lemma Root(p: BrakingProfile, m: real, sqrt: real -> real) returns (r: real)
    requires p.Valid() && IsSqrt(sqrt) && 0.0 <= m
    ensures r == sqrt(p.Radicand(m)) && 0.0 <= r && r * r == p.Radicand(m)
  {
    NonNegativeRadicand(p.latency, p.decel, m);
    r := sqrt(p.Radicand(m));
  }

  lemma FitsByRoot(p: BrakingProfile, v: real, m: real, sqrt: real -> real, r: real)
    requires p.Valid() && 0.0 <= v && 0.0 < m
    requires r == sqrt(p.Radicand(m)) && 0.0 <= r && r * r == p.Radicand(m)
    ensures p.StoppingDistance(v) <= m <==> AtMost(v, p.MaxSpeed(Within(m), sqrt))
  {
    LawInverse(v, p.latency, p.decel, m, r);
  }

  lemma NonNegativeRadicand(t: real, a: real, m: real)
    requires 0.0 < a && 0.0 <= m
    ensures 0.0 <= t * t + 2.0 * m / a
  {
    var q := Quotient(2.0 * m, a);
    ScaleOrder(a, 0.0, q);
  }

  lemma ZeroRoom(v: real, t: real, a: real)
    requires 0.0 < a && 0.0 <= v && 0.0 <= t
    ensures StoppingLaw(v, t, a) <= 0.0 <==> v <= 0.0
  {
    var w := Quotient(v, a);
    LawScaled(w, t, a);
    if 0.0 < v {
      PositiveProduct(w, w);
      PositiveProduct(a, w * t + w * w / 2.0);
    } else {
      assert w == 0.0;
    }
  }

  lemma MaxSpeedNonNegative(p: BrakingProfile, room: Extent, sqrt: real -> real)
    requires p.Valid() && IsSqrt(sqrt)
    ensures AtMost(0.0, p.MaxSpeed(room, sqrt))
  {
    if room.Within? && room.value > 0.0 {
      StopsWithinExactlyAtMaxSpeed(p, 0.0, room, sqrt);
    }
  }

  // ---------------------------------------------------------------------------
  // Room to the floor, measured over the returns of one sweep
  // ---------------------------------------------------------------------------

  /** Whether a return can come within the floor on this heading at all. */
  predicate Limits(p: Point, floor: real) {
    0.0 < p.x && Abs(p.y) < floor
  }

  /** How far the robot can go before the return is at the floor. */
  function RoomTo(p: Point, floor: real, sqrt: real -> real): real {
    p.x - sqrt(floor * floor - p.y * p.y)
  }

  function Nearer(best: Room, p: Point, floor: real, sqrt: real -> real): Room {
    if !Limits(p, floor) then best
    else if best.room.Unlimited? || RoomTo(p, floor, sqrt) < best.room.value
    then Room(Within(RoomTo(p, floor, sqrt)), Some(p))
    else best
  }

  function RoomOf(beams: seq<Point>, floor: real, sqrt: real -> real): Room {
    if beams == [] then Room(Unlimited, None)
    else Nearer(RoomOf(beams[..|beams| - 1], floor, sqrt), beams[|beams| - 1], floor, sqrt)
  }

  /** An unreadable or empty sweep has no room, not even an unlimited one. */
  function MeasuredRoom(sweep: Option<seq<Point>>, floor: real, sqrt: real -> real): Option<Room> {
    if sweep.None? || sweep.value == [] then None
    else Some(RoomOf(sweep.value, floor, sqrt))
  }

  method RoomToFloor(sweep: Option<seq<Point>>, floor: real, sqrt: real -> real) returns (result: Option<Room>)
    ensures result == MeasuredRoom(sweep, floor, sqrt)
  {
    if sweep.None? || sweep.value == [] {
      return None;
    }
    var beams := sweep.value;
    var best := Room(Unlimited, None);
    for i := 0 to |beams|
      invariant best == RoomOf(beams[..i], floor, sqrt)
    {
      var p := beams[i];
      assert beams[..i + 1][..i] == beams[..i] && beams[..i + 1][i] == p;
      if p.x <= 0.0 || Abs(p.y) >= floor {
        continue;
      }
      var room := RoomTo(p, floor, sqrt);
      if best.room.Unlimited? || room < best.room.value {
        best := Room(Within(room), Some(p));
      }
    }
    assert beams[..|beams|] == beams;
    return Some(best);
  }

  /** The measured room is the smallest over the returns that limit the drive,
      and some return attains it. */
  lemma {:induction false} RoomIsLeast(beams: seq<Point>, floor: real, sqrt: real -> real)
    ensures var r := RoomOf(beams, floor, sqrt);
            && (forall p :: p in beams && Limits(p, floor) ==>
                  r.room.Within? && r.room.value <= RoomTo(p, floor, sqrt))
            && (r.room.Unlimited? <==> r.limiting.None?)
            && (r.limiting.Some? ==>
                  && r.limiting.value in beams && Limits(r.limiting.value, floor)
                  && r.room == Within(RoomTo(r.limiting.value, floor, sqrt)))
  {
    if beams == [] {
    } else {
      var front := beams[..|beams| - 1];
      RoomIsLeast(front, floor, sqrt);
      assert beams == front + [beams[|beams| - 1]];
    }
  }

  // ---------------------------------------------------------------------------
  // Clearance of a return after travelling s along the heading
  // ---------------------------------------------------------------------------

  function Square(x: real): real {
    x * x
  }

  /** Squared range of a return once the robot has gone `s` along the heading. */
  function RangeSquared(p: Point, s: real): real {
    Square(p.x - s) + Square(p.y)
  }

  /** After going `s`, the return is no nearer than the smaller of the floor and
      the range it had at the start. */
  predicate Clear(p: Point, floor: real, s: real) {
    RangeSquared(p, s) >= Min(Square(floor), RangeSquared(p, 0.0))
  }

  lemma SquareOfAbs(y: real, floor: real)
    requires 0.0 <= floor
    ensures Abs(y) < floor <==> Square(y) < Square(floor)
  {
    SquareOrder(floor, Abs(y));
    assert Square(Abs(y)) == Square(y);
  }

  /** A limiting return stays at or beyond the floor up to its own room. */
  lemma ClearUpToItsRoom(p: Point, floor: real, s: real, sqrt: real -> real)
    requires IsSqrt(sqrt) && Limits(p, floor) && s <= RoomTo(p, floor, sqrt)
    ensures RangeSquared(p, s) >= Square(floor)
  {
    SquareOfAbs(p.y, floor);
    var h := sqrt(floor * floor - p.y * p.y);
    assert h * h == Square(floor) - Square(p.y);
    SquareOrder(h, p.x - s);
  }

  /** A return beside or behind only ever satisfies the clearance bound. */
  lemma ClearWhenNotLimiting(p: Point, floor: real, s: real)
    requires 0.0 <= floor && 0.0 <= s && !Limits(p, floor)
    ensures Clear(p, floor, s)
  {
    assert 0.0 <= Square(p.x - s);
    if p.x <= 0.0 {
      SquareOrder(-p.x, s - p.x);
      assert Square(p.x - s) == Square(s - p.x) && Square(-p.x) == Square(p.x - 0.0);
    } else {
      SquareOfAbs(p.y, floor);
    }
  }

  /** Nothing in the sweep comes nearer than the smaller of the floor and its own
      range while the robot is within the measured room. */
  lemma ClearWithinRoom(beams: seq<Point>, floor: real, s: real, sqrt: real -> real)
    requires IsSqrt(sqrt) && 0.0 <= floor && 0.0 <= s
    requires AtMost(s, RoomOf(beams, floor, sqrt).room)
    ensures forall p :: p in beams ==> Clear(p, floor, s)
  {
    RoomIsLeast(beams, floor, sqrt);
    forall p | p in beams
      ensures Clear(p, floor, s)
    {
      if Limits(p, floor) {
        ClearUpToItsRoom(p, floor, s, sqrt);
      } else {
        ClearWhenNotLimiting(p, floor, s);
      }
    }
  }

  // ---------------------------------------------------------------------------
  // Planning a drive before it is sent
  // ---------------------------------------------------------------------------

  function CappedSpeed(requested: real, fastest: Extent, fraction: real): real {
    match fastest
    case Unlimited => requested
    case Within(m) => Min(requested, m * fraction)
  }

  /** The request cut down to what `room` allows: the speed in either mode, the
      distance only when planned. A positive fraction of an infinite speed is
      infinite. */
  function PlanDrive(p: BrakingProfile, room: Extent, requestedSpeed: real, requestedDistance: real,
                     mode: Mode, fraction: real, sqrt: real -> real): DrivePlan
    requires p.Valid() && 0.0 < fraction
  {
    var speedAsked := Abs(requestedSpeed);
    var distanceAsked := Abs(requestedDistance);
    var speed := CappedSpeed(speedAsked, p.MaxSpeed(room, sqrt), fraction);
    var distance :=
      if mode.PlannedBeforeSend? && room.Within?
      then Min(distanceAsked, room.value - p.StoppingDistance(speed)) else distanceAsked;
    var refusal :=
      if speed < MIN_SPEED_MPS then Some(CannotStop)
      else if MIN_DISTANCE_M <= distanceAsked && distance < MIN_DISTANCE_M then Some(TooShort)
      else None;
    DrivePlan(speed, Max(0.0, distance), distance < distanceAsked, refusal)
  }

  lemma CappedSpeedFits(p: BrakingProfile, room: Extent, requested: real, fraction: real, sqrt: real -> real)
    requires p.Valid() && IsSqrt(sqrt) && 0.0 <= requested && 0.0 < fraction <= 1.0
    ensures AtMost(CappedSpeed(requested, p.MaxSpeed(room, sqrt), fraction), p.MaxSpeed(room, sqrt))
    ensures 0.0 <= CappedSpeed(requested, p.MaxSpeed(room, sqrt), fraction) <= requested
  {
    MaxSpeedNonNegative(p, room, sqrt);
    var fastest := p.MaxSpeed(room, sqrt);
    if fastest.Within? {
      assert 0.0 <= fastest.value * fraction <= fastest.value;
    }
  }

  /** An accepted drive, whichever way it is governed, is sent no faster and no farther
      than asked and at a speed that stops in the room; a planned one leaves the room
      to stop after its distance, and a re-sendable one keeps the distance asked. */
  lemma AcceptedPlanFits(p: BrakingProfile, room: Extent, requestedSpeed: real, requestedDistance: real, mode: Mode,
                         fraction: real, sqrt: real -> real)
    requires p.Valid() && IsSqrt(sqrt) && 0.0 < fraction <= 1.0
    requires PlanDrive(p, room, requestedSpeed, requestedDistance, mode, fraction, sqrt).refusal.None?
    ensures var plan := PlanDrive(p, room, requestedSpeed, requestedDistance, mode, fraction, sqrt);
            && MIN_SPEED_MPS <= plan.speed <= Abs(requestedSpeed)
            && 0.0 <= plan.distance <= Abs(requestedDistance)
            && AtMost(p.StoppingDistance(plan.speed), room) && (room.Within? ==> 0.0 < room.value)
            && (mode.PlannedBeforeSend? ==> AtMost(plan.distance + p.StoppingDistance(plan.speed), room))
            && (mode.PreemptiveResend? ==> plan.distance == Abs(requestedDistance) && !plan.shortened)
  {
    CappedSpeedFits(p, room, Abs(requestedSpeed), fraction, sqrt);
    var plan := PlanDrive(p, room, requestedSpeed, requestedDistance, mode, fraction, sqrt);
    if room.Within? && 0.0 < room.value {
      StopsWithinExactlyAtMaxSpeed(p, plan.speed, room, sqrt);
    }
  }

  /** The plan gives away nothing. Its speed is, however it is governed and even if it
      is refused, the largest within the one asked for whose multiple by one over the
      fraction still stops in the room: for any speed `w`, that fraction of it is
      within the plan exactly when it is within what was asked and `w` itself could
      stop. */
  lemma PlannedSpeedIsLargest(p: BrakingProfile, room: Extent, requestedSpeed: real, requestedDistance: real, mode: Mode,
                              fraction: real, sqrt: real -> real, w: real)
    requires p.Valid() && IsSqrt(sqrt) && 0.0 < fraction && 0.0 <= w && (room.Within? ==> 0.0 <= room.value)
    ensures var plan := PlanDrive(p, room, requestedSpeed, requestedDistance, mode, fraction, sqrt);
            w * fraction <= plan.speed
            <==> w * fraction <= Abs(requestedSpeed) && AtMost(p.StoppingDistance(w), room)
  {
    StopsWithinExactlyAtMaxSpeed(p, w, room, sqrt);
    var fastest := p.MaxSpeed(room, sqrt);
    var plan := PlanDrive(p, room, requestedSpeed, requestedDistance, mode, fraction, sqrt);
    assert plan.speed == CappedSpeed(Abs(requestedSpeed), fastest, fraction);
    CappedFits(Abs(requestedSpeed), fastest, fraction, w);
  }

  /** The distance of an accepted planned drive is the largest within the one asked for
      that leaves the room to stop from its speed. */
  lemma AcceptedPlanIsLargest(p: BrakingProfile, room: Extent, requestedSpeed: real, requestedDistance: real, mode: Mode,
                              fraction: real, sqrt: real -> real, w: real, s: real)
    requires p.Valid() && IsSqrt(sqrt) && 0.0 < fraction <= 1.0 && 0.0 <= w && 0.0 <= s
    requires PlanDrive(p, room, requestedSpeed, requestedDistance, mode, fraction, sqrt).refusal.None?
    ensures var plan := PlanDrive(p, room, requestedSpeed, requestedDistance, mode, fraction, sqrt);
            && (w * fraction <= plan.speed
                <==> w * fraction <= Abs(requestedSpeed) && AtMost(p.StoppingDistance(w), room))
            && (s <= plan.distance
                <==> && s <= Abs(requestedDistance)
                     && (mode.PlannedBeforeSend? ==> AtMost(s + p.StoppingDistance(plan.speed), room)))
            && (plan.shortened <==> plan.distance < Abs(requestedDistance))
  {
    AcceptedPlanFits(p, room, requestedSpeed, requestedDistance, mode, fraction, sqrt);
    PlannedSpeedIsLargest(p, room, requestedSpeed, requestedDistance, mode, fraction, sqrt, w);
  }

  /** The slowest drive that is sent at all cannot be planned. */
  predicate CannotStopFromSlowest(p: BrakingProfile, room: Extent, requestedSpeed: real, fraction: real)
    requires p.Valid() && 0.0 < fraction
  {
    Abs(requestedSpeed) < MIN_SPEED_MPS || !AtMost(p.StoppingDistance(MIN_SPEED_MPS / fraction), room)
  }

  /** A speed that could be planned needs more room to stop than the shortest drive
      would leave it. */
  ghost predicate SomeSpeedLeavesNoDrive(p: BrakingProfile, room: Extent, requestedSpeed: real, fraction: real)
    requires p.Valid()
  {
    exists w: real :: LeavesNoDrive(p, room, requestedSpeed, fraction, w)
  }

  predicate LeavesNoDrive(p: BrakingProfile, room: Extent, requestedSpeed: real, fraction: real, w: real)
    requires p.Valid()
  {
    && 0.0 <= w && w * fraction <= Abs(requestedSpeed) && AtMost(p.StoppingDistance(w), room)
    && !AtMost(MIN_DISTANCE_M + p.StoppingDistance(w * fraction), room)
  }

  /** A drive is refused as unable to stop exactly when the slowest speed, before the
      fraction is taken of it, could not stop in the room or was not even asked for;
      and as too short exactly when it is planned, a real distance was asked for, and
      some speed it could have leaves no room for the shortest one. */
  lemma RefusedExactlyWhen(p: BrakingProfile, room: Extent, requestedSpeed: real, requestedDistance: real, mode: Mode,
                           fraction: real, sqrt: real -> real)
    requires p.Valid() && IsSqrt(sqrt) && 0.0 < fraction
    ensures var refusal := PlanDrive(p, room, requestedSpeed, requestedDistance, mode, fraction, sqrt).refusal;
            && (refusal == Some(CannotStop) <==> CannotStopFromSlowest(p, room, requestedSpeed, fraction))
            && (refusal == Some(TooShort)
                <==> && !CannotStopFromSlowest(p, room, requestedSpeed, fraction)
                     && mode.PlannedBeforeSend? && MIN_DISTANCE_M <= Abs(requestedDistance)
                     && SomeSpeedLeavesNoDrive(p, room, requestedSpeed, fraction))
  {
    var plan := PlanDrive(p, room, requestedSpeed, requestedDistance, mode, fraction, sqrt);
    var slowest := Quotient(MIN_SPEED_MPS, fraction);
    assert slowest * fraction == MIN_SPEED_MPS && 0.0 < slowest;
    if room.Within? && room.value < 0.0 {
      LawGrows(0.0, slowest, p.latency, p.decel);
    } else {
      PlannedSpeedIsLargest(p, room, requestedSpeed, requestedDistance, mode, fraction, sqrt, slowest);
      if !CannotStopFromSlowest(p, room, requestedSpeed, fraction) {
        TooShortExactlyWhen(p, room, requestedSpeed, requestedDistance, fraction, sqrt);
      }
    }
  }

  lemma TooShortExactlyWhen(p: BrakingProfile, room: Extent, requestedSpeed: real, requestedDistance: real, fraction: real,
                            sqrt: real -> real)
    requires p.Valid() && IsSqrt(sqrt) && 0.0 < fraction && (room.Within? ==> 0.0 <= room.value)
    ensures var speed := CappedSpeed(Abs(requestedSpeed), p.MaxSpeed(room, sqrt), fraction);
            SomeSpeedLeavesNoDrive(p, room, requestedSpeed, fraction)
            <==> !AtMost(MIN_DISTANCE_M + p.StoppingDistance(speed), room)
  {
    var speed := CappedSpeed(Abs(requestedSpeed), p.MaxSpeed(room, sqrt), fraction);
    var plan := PlanDrive(p, room, requestedSpeed, requestedDistance, PlannedBeforeSend, fraction, sqrt);
    assert plan.speed == speed;
    MaxSpeedNonNegative(p, room, sqrt);
    CappedIsNonNegative(Abs(requestedSpeed), p.MaxSpeed(room, sqrt), fraction);
    if SomeSpeedLeavesNoDrive(p, room, requestedSpeed, fraction) {
      var w :| LeavesNoDrive(p, room, requestedSpeed, fraction, w);
      PlannedSpeedIsLargest(p, room, requestedSpeed, requestedDistance, PlannedBeforeSend, fraction, sqrt, w);
      assert 0.0 <= w * fraction;
      LawGrows(w * fraction, speed, p.latency, p.decel);
    }
    if !AtMost(MIN_DISTANCE_M + p.StoppingDistance(speed), room) {
      var w := Quotient(speed, fraction);
      assert w * fraction == speed;
      NonNegativeQuotient(w, fraction, speed);
      PlannedSpeedIsLargest(p, room, requestedSpeed, requestedDistance, PlannedBeforeSend, fraction, sqrt, w);
      assert LeavesNoDrive(p, room, requestedSpeed, fraction, w);
    }
  }

  lemma CappedIsNonNegative(requested: real, fastest: Extent, fraction: real)
    requires 0.0 <= requested && 0.0 < fraction && (fastest.Within? ==> 0.0 <= fastest.value)
    ensures 0.0 <= CappedSpeed(requested, fastest, fraction) <= requested
  {
    if fastest.Within? {
      assert 0.0 <= fastest.value * fraction;
    }
  }

  lemma NonNegativeQuotient(w: real, fraction: real, speed: real)
    requires 0.0 < fraction && w * fraction == speed && 0.0 <= speed
    ensures 0.0 <= w
  {
    ScaleOrder(fraction, 0.0, w);
    assert fraction * w == w * fraction && fraction * 0.0 == 0.0;
  }

  lemma CappedFits(requested: real, fastest: Extent, fraction: real, w: real)
    requires 0.0 < fraction
    ensures w * fraction <= CappedSpeed(requested, fastest, fraction) <==> w * fraction <= requested && AtMost(w, fastest)
  {
    if fastest.Within? {
      var x, y := w * fraction, fastest.value * fraction;
      assert AtMost(w, fastest) <==> x <= y by { ScaledOrder(w, fastest.value, fraction, x, y); }
      assert CappedSpeed(requested, fastest, fraction) == Min(requested, y);
    }
  }

  lemma ScaledOrder(x: real, y: real, a: real, scaledX: real, scaledY: real)
    requires 0.0 < a && scaledX == x * a && scaledY == y * a
    ensures x <= y <==> scaledX <= scaledY
  {
    assert scaledY - scaledX == (y - x) * a;
    if x <= y {
      assert 0.0 <= (y - x) * a;
    } else {
      PositiveProduct(x - y, a);
      assert (x - y) * a == scaledX - scaledY;
    }
  }

  /** A drive accepted from the room its own sweep measured travels its distance
      and its whole stopping distance with every return clear. */
  lemma PlannedDriveStaysClear(p: BrakingProfile, beams: seq<Point>, requestedSpeed: real, requestedDistance: real,
                               fraction: real, sqrt: real -> real, s: real)
    requires p.Valid() && IsSqrt(sqrt) && 0.0 < fraction <= 1.0 && 0.0 <= p.floor
    requires var room := RoomOf(beams, p.floor, sqrt).room;
             var plan := PlanDrive(p, room, requestedSpeed, requestedDistance, PlannedBeforeSend, fraction, sqrt);
             && plan.refusal.None?
             && 0.0 <= s <= plan.distance + p.StoppingDistance(plan.speed)
    ensures forall q :: q in beams ==> Clear(q, p.floor, s)
  {
    AcceptedPlanFits(p, RoomOf(beams, p.floor, sqrt).room, requestedSpeed, requestedDistance, PlannedBeforeSend, fraction,
                     sqrt);
    ClearWithinRoom(beams, p.floor, s, sqrt);
  }

  // ---------------------------------------------------------------------------
  // Resolving a profile, and how stale a scan may become
  // ---------------------------------------------------------------------------

  /** Configured, measured and declared values combined conservatively. A
      declared deceleration of zero is ignored. */
  function ResolveProfile(floor: real, configuredLatency: real, configuredDecel: real,
                          measured: Option<LatencyBudget>, declared: Option<real>): BrakingProfile
  {
    var configured := Clamp(configuredLatency, LATENCY_LOW_S, LATENCY_HIGH_S);
    var latency :=
      if measured.Some? && measured.value.Total() > configured
      then Clamp(measured.value.Total(), LATENCY_LOW_S, LATENCY_HIGH_S) else configured;
    var base := Clamp(configuredDecel, DECEL_LOW_MPS2, DECEL_HIGH_MPS2);
    var decel :=
      if declared.Some? && 0.0 < Abs(declared.value) < base
      then Clamp(Abs(declared.value), DECEL_LOW_MPS2, DECEL_HIGH_MPS2) else base;
    var credit :=
      if measured.Some?
      then Max(0.0, Min(measured.value.scanPeriod, latency - (measured.value.Total() - measured.value.scanPeriod)))
      else 0.0;
    BrakingProfile(floor, latency, decel, credit)
  }

  /** A measurement only lengthens the latency and a declaration only lowers the
      deceleration; and the latency without the credit is no shorter than
      the measured budget without its scan period, unless clamped. */
  lemma ResolvedConservatively(floor: real, configuredLatency: real, configuredDecel: real,
                               measured: Option<LatencyBudget>, declared: Option<real>)
    ensures var p := ResolveProfile(floor, configuredLatency, configuredDecel, measured, declared);
            var unmeasured := ResolveProfile(floor, configuredLatency, configuredDecel, None, declared);
            var undeclared := ResolveProfile(floor, configuredLatency, configuredDecel, measured, None);
            && p.Valid() && p.floor == floor
            && LATENCY_LOW_S <= p.latency <= LATENCY_HIGH_S
            && DECEL_LOW_MPS2 <= p.decel <= DECEL_HIGH_MPS2
            && unmeasured.latency <= p.latency && p.decel <= undeclared.decel
            && (measured.Some? && measured.value.Total() <= LATENCY_HIGH_S ==> measured.value.Total() <= p.latency)
            && (measured.None? ==> p.credit == 0.0)
            && (measured.Some? && 0.0 < p.credit ==>
                  var rest := measured.value.Total() - measured.value.scanPeriod;
                  p.credit <= measured.value.scanPeriod && rest <= p.latency - p.credit)
  {
  }

  /** And no more than that: the latency is the larger of the two clamped values, the
      deceleration the smaller unless the declared one is zero, and the credit the
      most that the scan period and the rest of the budget leave. */
  lemma ResolvedExactly(floor: real, configuredLatency: real, configuredDecel: real, measured: Option<LatencyBudget>,
                        declared: Option<real>, c: real)
    requires 0.0 < c
    ensures var p := ResolveProfile(floor, configuredLatency, configuredDecel, measured, declared);
            var configured := Clamp(configuredLatency, LATENCY_LOW_S, LATENCY_HIGH_S);
            var base := Clamp(configuredDecel, DECEL_LOW_MPS2, DECEL_HIGH_MPS2);
            && p.latency == (if measured.None? then configured
                             else Max(configured, Clamp(measured.value.Total(), LATENCY_LOW_S, LATENCY_HIGH_S)))
            && p.decel == (if declared.None? || declared.value == 0.0 then base
                           else Min(base, Clamp(Abs(declared.value), DECEL_LOW_MPS2, DECEL_HIGH_MPS2)))
            && (c <= p.credit
                <==> && measured.Some? && c <= measured.value.scanPeriod
                     && measured.value.Total() - measured.value.scanPeriod + c <= p.latency)
  {
  }

  /** The age at which the travel since the scan and up to the next poll uses up what
      `room` leaves beyond stopping; no age does for a robot at rest. */
  function BlindTimeToFloor(p: BrakingProfile, room: Extent, speed: real, poll: real): Extent
    requires p.Valid()
  {
    var v := Abs(speed);
    if room.Unlimited? || v <= 0.0 then Unlimited
    else Within(p.PeriodCredit() + (room.value - p.StoppingDistance(v)) / v - Max(0.0, poll))
  }

  /** A number of intervals, of a kind that counts and is known. */
  function Intervals(count: real, interval: Option<real>): Option<real> {
    if interval.Some? && 0.0 < count then Some(count * interval.value) else None
  }

  function AtLeast(rate: real, other: Option<real>): real {
    if other.Some? then Max(rate, other.value) else rate
  }

  function RateLimit(policy: ScanStalePolicy, configured: real, nominal: Option<real>, worst: Option<real>): real {
    var r0 := AtLeast(configured, Intervals(policy.missedPeriods, nominal));
    var r1 := AtLeast(r0, Intervals(policy.worstIntervalMultiple, worst));
    if policy.ceiling.Some? then Min(r1, policy.ceiling.value) else r1
  }

  /** The least of what the rate allows and, for a policy bound to the floor with a
      known room, the blind time at this speed. */
  function ScanStaleLimit(policy: ScanStalePolicy, configured: real, nominal: Option<real>, worst: Option<real>,
                          p: BrakingProfile, room: Option<Extent>, speed: real, poll: real): (limit: real)
    requires p.Valid()
    ensures limit <= RateLimit(policy, configured, nominal, worst)
    ensures policy.floorBound && room.Some? ==> AtMost(limit, BlindTimeToFloor(p, room.value, speed, poll))
    ensures policy.ceiling.Some? ==> limit <= policy.ceiling.value
  {
    var rate := RateLimit(policy, configured, nominal, worst);
    if policy.floorBound && room.Some? then
      match BlindTimeToFloor(p, room.value, speed, poll)
      case Unlimited => rate
      case Within(floorLimit) => if floorLimit < rate then floorLimit else rate
    else rate
  }

  /** An age is within the limit exactly when one of the rates that count allows it,
      no ceiling forbids it, and a policy bound to the floor in a known room has the
      blind time for it. */
  lemma StaleLimitExactlyWhen(policy: ScanStalePolicy, configured: real, nominal: Option<real>, worst: Option<real>,
                              p: BrakingProfile, room: Option<Extent>, speed: real, poll: real, age: real)
    requires p.Valid()
    ensures age <= ScanStaleLimit(policy, configured, nominal, worst, p, room, speed, poll)
            <==> && (age <= configured || Covers(policy.missedPeriods, nominal, age)
                     || Covers(policy.worstIntervalMultiple, worst, age))
                 && (policy.ceiling.Some? ==> age <= policy.ceiling.value)
                 && (policy.floorBound && room.Some? ==> AtMost(age, BlindTimeToFloor(p, room.value, speed, poll)))
  {
    hide BlindTimeToFloor, Intervals, Covers;
    CoversIntervals(policy.missedPeriods, nominal, age);
    CoversIntervals(policy.worstIntervalMultiple, worst, age);
  }

  /** An age is within a number of known intervals. */
  predicate Covers(count: real, interval: Option<real>, age: real) {
    interval.Some? && 0.0 < count && age <= count * interval.value
  }

  lemma CoversIntervals(count: real, interval: Option<real>, age: real)
    ensures Covers(count, interval, age) <==> Intervals(count, interval).Some? && age <= Intervals(count, interval).value
  {
  }

  /** The stopping law as speed times a mean delay. */
  lemma StoppingAsDelay(p: BrakingProfile, v: real) returns (delay: real)
    requires p.Valid() && 0.0 <= v
    ensures p.StoppingDistance(v) == v * delay && delay == p.latency + v / (2.0 * p.decel)
  {
    var h := Quotient(v, 2.0 * p.decel);
    delay := p.latency + h;
    Distribute(v, p.latency, h);
    assert v * v == (2.0 * p.decel) * (v * h);
    assert v * v / (2.0 * p.decel) == v * h;
  }

  lemma SlowerUsesLess(v: real, u: real, big: real, small: real, room: real)
    requires 0.0 < v <= u && small <= big && 0.0 <= room && u * big <= room
    ensures v * small <= room
  {
    var least, middle, most := v * small, v * big, u * big;
    assert least <= middle by { MultipliedOrder(v, small, big); }
    if 0.0 < big {
      assert middle <= most by {
        MultipliedOrder(big, v, u);
        assert big * v == middle && big * u == most;
      }
    } else {
      assert middle <= 0.0 by {
        MultipliedOrder(v, big, 0.0);
        assert v * 0.0 == 0.0;
      }
    }
  }

  lemma HalfDelayGrows(a: real, v: real, u: real)
    requires 0.0 < a && v <= u
    ensures v / (2.0 * a) <= u / (2.0 * a)
  {
    var x := Quotient(v, 2.0 * a);
    var y := Quotient(u, 2.0 * a);
    ScaleOrder(2.0 * a, x, y);
  }

  lemma Distribute(v: real, x: real, y: real)
    ensures v * (x + y) == v * x + v * y
  {
  }

  /** A receipt age within the blind time, judged at a speed at least the robot's,
      leaves room for everything it and one more poll use beyond the credit. */
  lemma BlindTimeLeavesRoom(p: BrakingProfile, room: real, v: real, judged: real, poll: real, age: real)
    requires p.Valid() && 0.0 <= v <= judged && 0.0 <= poll
    requires p.StoppingDistance(v) <= room
    requires AtMost(age, BlindTimeToFloor(p, Within(room), judged, poll))
    ensures p.StoppingDistance(v) + v * Max(0.0, age + poll - p.PeriodCredit()) <= room
  {
    var x := age + poll - p.PeriodCredit();
    if 0.0 < v && 0.0 < x {
      BlindTimeIsExact(p, room, judged, poll, age);
      hide BlindTimeToFloor;
      SlowerLeavesRoom(p, room, v, judged, x);
    }
  }

  /** What fits at one speed fits at a slower one. */
  lemma SlowerLeavesRoom(p: BrakingProfile, room: real, v: real, judged: real, x: real)
    requires p.Valid() && 0.0 < v <= judged && p.StoppingDistance(v) <= room
    requires judged * x + p.StoppingDistance(judged) <= room
    ensures v * x + p.StoppingDistance(v) <= room
  {
    var c := StoppingAsDelay(p, judged);
    var d := StoppingAsDelay(p, v);
    HalfDelayGrows(p.decel, v, judged);
    Distribute(judged, x, c);
    NonNegativeRoom(p, v, room);
    SlowerUsesLess(v, judged, x + c, x + d, room);
    Distribute(v, x, d);
  }

  lemma NonNegativeRoom(p: BrakingProfile, v: real, room: real)
    requires p.Valid() && p.StoppingDistance(v) <= room
    ensures 0.0 <= room
  {
    LawGrows(0.0, Abs(v), p.latency, p.decel);
  }

  /** Judged at the robot's own speed the bound is exact: an age is within the
      blind time exactly when one more poll still leaves the stopping distance. */
  lemma BlindTimeIsExact(p: BrakingProfile, room: real, v: real, poll: real, age: real)
    requires p.Valid() && 0.0 < v && 0.0 <= poll
    ensures AtMost(age, BlindTimeToFloor(p, Within(room), v, poll))
            <==> v * (age + poll - p.PeriodCredit()) + p.StoppingDistance(v) <= room
  {
    var y := Quotient(room - p.StoppingDistance(v), v);
    ScaleOrder(v, age + poll - p.PeriodCredit(), y);
  }
}
