/** Goals over rosbridge: which goal drives a call while its braking guard replaces it
    with slower ones, and what an incoming message changes
    (flyto_robotics/generic_ros2_adapter.py). */
module GoalReplacement {
  import opened Wrappers
  import opened Decimal

  const SLOWDOWN_STEP := 0.9
  const NEARLY_THERE_M := 0.02
  const SLOW_MARK := "#slow"

  datatype Operation = ServiceResponse | ActionResult | ActionFeedback | AnyOther

  /** An incoming message; its identifier is absent when it is not a string. */
  datatype Message = Message(op: Operation, id: Option<string>, body: int)

  datatype SpeedChange = SpeedChange(speed: real, remaining: Option<real>)

  /** The part of a braking guard that governs re-sent goals. */
  datatype Guard = Guard(resends: bool, slowTo: Option<real>, speed: real, distance: real, changes: seq<SpeedChange>)

  datatype Goals = Goals(ids: map<string, string>, owner: map<string, string>, results: map<string, Message>,
                         responses: map<string, Message>, feedback: seq<(string, int)>, guards: map<string, Guard>,
                         active: set<string>)

  /** The goal a replacement asks for. */
  datatype Resend = Resend(distance: real, speed: real)

  /** A replacement being sent, the goal it replaces and what it asks for. */
  datatype Pending = Pending(goal: string, previous: string, resend: Resend)

  function Lookup(m: map<string, string>, key: string): string {
    if key in m then m[key] else key
  }

  function Owner(s: Goals, id: string): string {
    Lookup(s.owner, id)
  }

  /** The goal now driving a call. */
  function Current(s: Goals, call: string): string {
    Lookup(s.ids, call)
  }

  function Handled(s: Goals, m: Message): Goals {
    if m.id.None? then s
    else
      var owner := Owner(s, m.id.value);
      if (m.op.ActionResult? || m.op.ActionFeedback?) && Current(s, owner) != m.id.value then s
      else
        match m.op
        case ServiceResponse => s.(responses := s.responses[m.id.value := m])
        case ActionResult => s.(results := s.results[owner := m])
        case ActionFeedback => s.(feedback := s.feedback + [(owner, m.body)])
        case AnyOther => s
  }

  function SlowId(call: string, n: nat): string {
    call + SLOW_MARK + ToDecimal(n)
  }

  predicate MaySlow(s: Goals, call: string) {
    call in s.guards && s.guards[call].resends && s.guards[call].slowTo.Some? && call in s.active
  }

  /** The replacement that is due, recorded before it is sent. */
  function Begun(s: Goals, call: string, travelled: real): (Goals, Option<Pending>) {
    if !MaySlow(s, call) then (s, None)
    else
      var guard := s.guards[call];
      var remaining := guard.distance - travelled;
      if remaining <= NEARLY_THERE_M then (s.(guards := s.guards[call := guard.(slowTo := None)]), None)
      else
        var goal := SlowId(call, |guard.changes|);
        (s.(ids := s.ids[call := goal], owner := s.owner[goal := call],
            guards := s.guards[call := Guard(true, None, guard.slowTo.value, guard.distance,
                                             guard.changes + [SpeedChange(guard.slowTo.value, Some(remaining))])]),
         Some(Pending(goal, Current(s, call), Resend(remaining, guard.slowTo.value))))
  }

  /** `Begun` undone in the books: the previous id is current, the new one has no owner. */
  function RolledBack(s: Goals, call: string, pending: Pending): Goals {
    s.(ids := s.ids[call := pending.previous], owner := s.owner - {pending.goal})
  }

  /** A call that is over lets go of every goal id it had. */
  function Forgotten(s: Goals, call: string): Goals {
    s.(active := s.active - {call}, ids := s.ids - {call},
       owner := map id | id in s.owner && s.owner[id] != call :: s.owner[id])
  }

  function Taken(s: Goals, call: string): (Goals, Option<Message>) {
    if call in s.results then (s.(results := s.results - {call}), Some(s.results[call])) else (s, None)
  }

  /** A scan allows a re-sendable drive a clearly slower speed only. */
  function Slower(s: Goals, call: string, allowed: real): Goals {
    if call in s.guards && s.guards[call].resends && allowed < s.guards[call].speed * SLOWDOWN_STEP
    then s.(guards := s.guards[call := s.guards[call].(slowTo := Some(allowed))]) else s
  }

  function Tripped(s: Goals, call: string): Goals {
    if call in s.guards then s.(guards := s.guards[call := s.guards[call].(slowTo := None)]) else s
  }

  /** The connection's own books, updated in place by whichever thread holds its
      condition. */
  class RosbridgeGoals {
    var ids: map<string, string>
    var owner: map<string, string>
    var results: map<string, Message>
    var responses: map<string, Message>
    var feedback: seq<(string, int)>
    var guards: map<string, Guard>
    var active: set<string>

    ghost function State(): Goals
      reads this
    {
      Goals(ids, owner, results, responses, feedback, guards, active)
    }

    constructor ()
      ensures State() == Goals(map[], map[], map[], map[], [], map[], {})
    {
      ids, owner, results, responses, feedback, guards, active := map[], map[], map[], map[], [], map[], {};
    }

    method HandleMessage(m: Message)
      modifies this
      ensures State() == Handled(old(State()), m)
    {
      if m.id.None? {
        return;
      }
      var id := m.id.value;
      var call := if id in owner then owner[id] else id;
      var current := if call in ids then ids[call] else call;
      if (m.op.ActionResult? || m.op.ActionFeedback?) && current != id {
        return;
      }
      match m.op
      case ServiceResponse => responses := responses[id := m];
      case ActionResult => results := results[call := m];
      case ActionFeedback => feedback := feedback + [(call, m.body)];
      case AnyOther =>
    }

    /** The locked part of a slow-down; the caller then sends the goal. */
    method BeginSlowDown(call: string, travelled: real) returns (pending: Option<Pending>)
      modifies this
      ensures (State(), pending) == Begun(old(State()), call, travelled)
    {
      if call !in guards || !guards[call].resends || guards[call].slowTo.None? || call !in active {
        return None;
      }
      var guard := guards[call];
      ghost var before := guards;
      var speed := guard.slowTo.value;
      guards := guards[call := guard.(slowTo := None)];
      var remaining := guard.distance - travelled;
      if remaining <= NEARLY_THERE_M {
        return None;
      }
      var previous := if call in ids then ids[call] else call;
      var goal := call + SLOW_MARK + ToDecimal(|guard.changes|);
      ids := ids[call := goal];
      owner := owner[goal := call];
      guards := guards[call := guard.(slowTo := None, speed := speed,
                                      changes := guard.changes + [SpeedChange(speed, Some(remaining))])];
      assert guards == before[call := guards[call]];
      pending := Some(Pending(goal, previous, Resend(remaining, speed)));
    }

    method RollBack(call: string, pending: Pending)
      modifies this
      ensures State() == RolledBack(old(State()), call, pending)
    {
      ids := ids[call := pending.previous];
      owner := owner - {pending.goal};
    }

    method Take(call: string) returns (m: Option<Message>)
      modifies this
      ensures (State(), m) == Taken(old(State()), call)
    {
      if call in results {
        m := Some(results[call]);
        results := results - {call};
      } else {
        m := None;
      }
    }

    /** Every goal id of the call, one by one. */
    method ForgetGoalIds(call: string)
      modifies this
      ensures State() == Forgotten(old(State()), call)
    {
      active := active - {call};
      ids := ids - {call};
      ghost var before := owner;
      var todo := set id | id in owner && owner[id] == call;
      ghost var mine := todo;
      while todo != {}
        modifies this`owner
        invariant todo <= mine
        invariant forall id :: id in owner <==> id in before && (id in todo || id !in mine)
        invariant forall id :: id in owner ==> owner[id] == before[id]
        decreases |todo|
      {
        var id :| id in todo;
        owner := owner - {id};
        todo := todo - {id};
      }
      ghost var after := Forgotten(old(State()), call);
      assert forall id :: id in owner <==> id in after.owner;
      assert owner == after.owner;
    }
  }
}
