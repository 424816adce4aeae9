/** Buses: the functions any of them comes down to, and the simulated one in place
    (flyto_robotics/arm_bus.py). */
module ArmBus {
  import opened Wrappers
  import opened ArmProfile

  /** A call that got no answer, or met a joint the simulated bus does not have. */
  datatype BusError = NoAnswer | NoSuchJoint

  /** Where a motion looks at the stop flag: at the top of its loop, and under the
      lock before it writes. */
  datatype Look = AtTop | BeforeWrite

  /** A bus as what each call does to its state and answers, and whether a motion
      that looks finds a stop requested by then. Nothing else is known of it, so a
      statement over every driver and state is one over every bus, however it
      misbehaves, and every time at which a stop is asked for. A reading leaves out
      every joint without a finite value. */
  datatype Driver<!S> = Driver(
    readPositions: S -> (S, Result<Pose, BusError>),
    readTorque: S -> (S, Result<map<string, bool>, BusError>),
    writeGoals: (S, Pose) -> (S, Result<(), BusError>),
    setTorque: (S, bool) -> (S, Result<(), BusError>),
    stopRequested: (S, Look) -> bool)

  /** What stops a joint at `at`, from the side it closes from, until it slips or the
      joint goes back. */
  datatype SimulatedObject = SimulatedObject(joint: string, at: real, closing: real, slipPerRead: real,
                                             slipAfterReads: int, readsInContact: int, touched: bool)

  datatype Sim = Sim(positions: Pose, goals: Pose, torque: map<string, bool>, servoStep: real, stalled: set<string>,
                     dropAfterWrites: Option<int>, torqueOffIgnored: bool, sag: real, missing: set<string>,
                     connected: bool, objects: seq<SimulatedObject>, released: seq<SimulatedObject>,
                     writes: seq<Pose>, torqueCommands: seq<bool>) {

    predicate Valid() {
      goals.Keys <= positions.Keys
    }
  }

  predicate Driven(s: Sim, name: string) {
    name in s.torque && s.torque[name] && name !in s.stalled
  }

  /** Where the servos are after one read. */
  function Servoed(s: Sim): Pose
    requires s.Valid()
  {
    map n | n in s.positions ::
      if n !in s.goals then s.positions[n]
      else if s.sag != 0.0 then s.positions[n] - s.sag
      else if Driven(s, n) then Toward(s.positions[n], s.goals[n], s.servoStep)
      else s.positions[n]
  }

  datatype Touch = Touch(positions: Pose, kept: seq<SimulatedObject>, released: seq<SimulatedObject>)

  /** One object acting on the jaws: blocking them, giving way, or let go of. */
  function Touched(t: Touch, item: SimulatedObject): (r: Touch)
    requires item.joint in t.positions
    ensures r.positions.Keys == t.positions.Keys
    ensures r.kept == t.kept || (|r.kept| == |t.kept| + 1 && r.kept[..|t.kept|] == t.kept && r.kept[|t.kept|].joint == item.joint)
  {
    var past := (t.positions[item.joint] - item.at) * item.closing;
    if past >= 0.0 then
      var slips := item.touched && item.slipPerRead != 0.0;
      var count := if slips then item.readsInContact + 1 else item.readsInContact;
      var at := if slips && count > item.slipAfterReads then item.at + item.slipPerRead * item.closing else item.at;
      t.(positions := t.positions[item.joint := at], kept := t.kept + [item.(at := at, readsInContact := count, touched := true)])
    else if item.touched && past < -0.000000001 then t.(released := t.released + [item])
    else t.(kept := t.kept + [item])
  }

  /** Every object in turn, up to the first on a joint the bus does not have, and
      what is left from there on. */
  function ApplyObjects(t: Touch, objects: seq<SimulatedObject>): (r: (Touch, seq<SimulatedObject>))
    ensures r.0.positions.Keys == t.positions.Keys
    ensures r.1 == [] <==> forall item :: item in objects ==> item.joint in t.positions
    decreases objects
  {
    if objects == [] || objects[0].joint !in t.positions then (t, objects)
    else
      var r := ApplyObjects(Touched(t, objects[0]), objects[1..]);
      assert objects == [objects[0]] + objects[1..];
      r
  }

  lemma AppliesFirst(t: Touch, objects: seq<SimulatedObject>)
    requires objects != [] && objects[0].joint in t.positions
    ensures ApplyObjects(t, objects) == ApplyObjects(Touched(t, objects[0]), objects[1..])
  {
    hide Touched;
  }

  lemma AppliesNone(t: Touch, objects: seq<SimulatedObject>)
    requires objects == [] || objects[0].joint !in t.positions
    ensures ApplyObjects(t, objects) == (t, objects)
  {
  }

  function SimRead(s: Sim): (Sim, Result<Pose, BusError>) {
    if !s.connected || !s.Valid() then (s, Err(NoAnswer))
    else
      var (applied, left) := ApplyObjects(Touch(Servoed(s), [], s.released), s.objects);
      (s.(positions := applied.positions, objects := applied.kept + left, released := applied.released),
       if left != [] then Err(NoSuchJoint)
       else Ok(map n | n in applied.positions && n !in s.missing :: applied.positions[n]))
  }

  function SimTorque(s: Sim): (Sim, Result<map<string, bool>, BusError>) {
    if !s.connected then (s, Err(NoAnswer)) else (s, Ok(s.torque))
  }

  function SimWrite(s: Sim, goals: Pose): (Sim, Result<(), BusError>) {
    if !s.connected then (s, Err(NoAnswer))
    else if s.dropAfterWrites.Some? && |s.writes| >= s.dropAfterWrites.value then (s.(connected := false), Err(NoAnswer))
    else
      (s.(writes := s.writes + [goals],
          goals := map n | n in s.goals :: if n in goals then goals[n] else s.goals[n]), Ok(()))
  }

  function SimSetTorque(s: Sim, on: bool): (Sim, Result<(), BusError>) {
    if !s.connected then (s, Err(NoAnswer))
    else if !on && s.torqueOffIgnored then (s.(torqueCommands := s.torqueCommands + [on]), Ok(()))
    else (s.(torqueCommands := s.torqueCommands + [on], torque := map n | n in s.torque :: on), Ok(()))
  }

  /** A new bus: joints at zero but where said, told to stay there, nothing wrong. */
  function NewSim(joints: set<string>, at: Pose, torqueEnabled: bool, servoStep: real): Sim {
    Sim((map n | n in joints :: 0.0) + at, (map n | n in joints :: 0.0) + at, map n | n in joints :: torqueEnabled, servoStep,
        {}, None, false, 0.0, {}, true, [], [], [], [])
  }

  /** The simulated bus with nobody asking for a stop. */
  function SimDriver(): Driver<Sim> {
    Driver(SimRead, SimTorque, SimWrite, SimSetTorque, (_, _) => false)
  }

  /** The simulated bus in memory, updated in place by each call. */
  class SimulatedArmBus {
    var positions: Pose
    var goals: Pose
    var torque: map<string, bool>
    var servoStep: real
    var stalled: set<string>
    var dropAfterWrites: Option<int>
    var torqueOffIgnored: bool
    var sag: real
    var missing: set<string>
    var connected: bool
    var objects: seq<SimulatedObject>
    var released: seq<SimulatedObject>
    var writes: seq<Pose>
    var torqueCommands: seq<bool>

    ghost function State(): Sim
      reads this
    {
      Sim(positions, goals, torque, servoStep, stalled, dropAfterWrites, torqueOffIgnored, sag, missing, connected,
          objects, released, writes, torqueCommands)
    }

    constructor (joints: set<string>, at: Pose, torqueEnabled: bool, servoStep: real)
      ensures State() == NewSim(joints, at, torqueEnabled, servoStep)
      ensures State().Valid()
    {
      positions := (map n | n in joints :: 0.0) + at;
      goals := (map n | n in joints :: 0.0) + at;
      torque := map n | n in joints :: torqueEnabled;
      this.servoStep := servoStep;
      stalled, dropAfterWrites, torqueOffIgnored, sag, missing, connected := {}, None, false, 0.0, {}, true;
      objects, released, writes, torqueCommands := [], [], [], [];
    }

    /** One more object, not yet touched. */
    method PlaceObject(joint: string, at: real, closing: real, slipPerRead: real, slipAfterReads: int)
      returns (item: SimulatedObject)
      modifies this`objects
      ensures old(State().Valid()) ==> State().Valid()
      ensures State() == old(State()).(objects := old(objects) + [item])
      ensures item == SimulatedObject(joint, at, if closing < 0.0 then -1.0 else 1.0, slipPerRead, slipAfterReads, 0, false)
    {
      item := SimulatedObject(joint, at, if closing < 0.0 then -1.0 else 1.0, slipPerRead, slipAfterReads, 0, false);
      objects := objects + [item];
    }

    method ReadPositions() returns (r: Result<Pose, BusError>)
      requires State().Valid()
      modifies this
      ensures State().Valid() && (State(), r) == SimRead(old(State()))
    {
      if !connected {
        return Err(NoAnswer);
      }
      MoveServos();
      var done := ApplyAll();
      if !done {
        return Err(NoSuchJoint);
      }
      r := Ok(map n | n in positions && n !in missing :: positions[n]);
    }

    /** Each goal's joint in turn; the order does not matter. */
    method MoveServos()
      requires State().Valid()
      modifies this`positions
      ensures State() == old(State().(positions := Servoed(State())))
    {
      var todo := goals.Keys;
      ghost var before := positions;
      ghost var after := Servoed(State());
      while todo != {}
        invariant todo <= goals.Keys && positions.Keys == before.Keys
        invariant forall n :: n in before ==> positions[n] == (if n in todo then before[n] else after[n])
        decreases |todo|
      {
        var name :| name in todo;
        if sag != 0.0 {
          positions := positions[name := positions[name] - sag];
        } else if name in torque && torque[name] && name !in stalled {
          positions := positions[name := Toward(positions[name], goals[name], servoStep)];
        }
        todo := todo - {name};
      }
      assert positions == after;
    }

    /** What an object on a joint the bus does not have leaves behind: all before it
        applied, it and the rest as they were. */
    method ApplyAll() returns (done: bool)
      modifies this`positions, this`objects, this`released
      ensures positions.Keys == old(positions.Keys)
      ensures var (applied, left) := ApplyObjects(Touch(old(positions), [], old(released)), old(objects));
              && done == (left == [])
              && State() == old(State()).(positions := applied.positions, objects := applied.kept + left,
                                          released := applied.released)
    {
      hide ApplyObjects, Touched;
      var t, items := Touch(positions, [], released), objects;
      ghost var whole := ApplyObjects(t, items);
      while items != [] && items[0].joint in t.positions
        invariant t.positions.Keys == positions.Keys && ApplyObjects(t, items) == whole
        decreases |items|
      {
        AppliesFirst(t, items);
        t, items := Touched(t, items[0]), items[1..];
      }
      AppliesNone(t, items);
      done := items == [];
      positions, objects, released := t.positions, t.kept + items, t.released;
    }

    method ReadTorqueEnabled() returns (r: Result<map<string, bool>, BusError>)
      ensures (State(), r) == SimTorque(State())
    {
      r := if connected then Ok(torque) else Err(NoAnswer);
    }

    method WriteGoalPositions(goals: Pose) returns (r: Result<(), BusError>)
      modifies this
      ensures (State(), r) == SimWrite(old(State()), goals)
    {
      if !connected {
        return Err(NoAnswer);
      }
      if dropAfterWrites.Some? && |writes| >= dropAfterWrites.value {
        connected := false;
        return Err(NoAnswer);
      }
      writes := writes + [goals];
      this.goals := map n | n in this.goals :: if n in goals then goals[n] else this.goals[n];
      r := Ok(());
    }

    method SetTorque(on: bool) returns (r: Result<(), BusError>)
      modifies this
      ensures (State(), r) == SimSetTorque(old(State()), on)
    {
      if !connected {
        return Err(NoAnswer);
      }
      torqueCommands := torqueCommands + [on];
      if on || !torqueOffIgnored {
        torque := map n | n in torque :: on;
      }
      r := Ok(());
    }
  }
}
