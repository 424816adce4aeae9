/** What the steps of a plan must satisfy together (flyto_robotics/ai_planner.py). */
module PlanPolicy {
  import opened Wrappers
  import opened Capabilities

  const SAFE_STOP := "safe_stop"
  const FOLLOW_LINE := "follow_line"
  const ASK_HUMAN := "ask_human"
  const RESUME := "resume"
  const NEXT_COLOR := Str("next_color")

  /** Why a plan's steps together are not allowed. A missing argument is the lookup
      failing, not a verdict. */
  datatype PolicyError =
    | MovesToTheEnd | SameColor | NoLaterLine | OtherColor | RepeatedApproval | ResumeWithoutAsk | MovesWhilePending
    | NeverResumed | NoSuchArgument

  datatype Call = Call(stepId: string, capability: string, arguments: map<Key, Json>, timeout: real, onFailure: string)

  /** Python's `str` of an argument: a string is itself, anything else is left to it. */
  type Shower = Json -> string

  function Shown(show: Shower, value: Json): string {
    if value.Str? then value.s else show(value)
  }

  predicate Moves(step: Call) {
    step.capability in {"navigate", "navigate_to_location", "move_relative", "turn_relative", FOLLOW_LINE}
  }

  predicate Follows(step: Call) {
    step.capability == FOLLOW_LINE
  }

  predicate Asks(step: Call) {
    step.capability == ASK_HUMAN
  }

  predicate Resumes(step: Call) {
    step.capability == RESUME
  }

  function Approval(show: Shower, step: Call): string {
    Shown(show, ValueAt(step.arguments, ApprovalId))
  }

  // ---------------------------------------------------------------------------
  // The policy, as a plan's reader would state it
  // ---------------------------------------------------------------------------

  /** Every argument the policy looks up is there. */
  predicate HasArguments(step: Call) {
    && (Follows(step) ==> Color in step.arguments
                          && (ValueAt(step.arguments, Completion) == NEXT_COLOR ==> NextColor in step.arguments))
    && (Asks(step) || Resumes(step) ==> ApprovalId in step.arguments)
  }

  /** A plan that moves ends in a safe stop. */
  predicate EndsStopped(steps: seq<Call>) {
    (exists i :: 0 <= i < |steps| && Moves(steps[i])) ==> steps[|steps| - 1].capability == SAFE_STOP
  }

  predicate IsNextMotion(steps: seq<Call>, i: nat, j: nat) {
    i < j < |steps| && Moves(steps[j]) && forall k :: i < k < j ==> !Moves(steps[k])
  }

  /** A line followed until the next colour: the colour changes, and the next motion
      step follows a line of that colour. */
  ghost predicate ChangesLine(show: Shower, steps: seq<Call>, i: nat)
    requires i < |steps|
  {
    Follows(steps[i]) && ValueAt(steps[i].arguments, Completion) == NEXT_COLOR ==>
      var color := Shown(show, ValueAt(steps[i].arguments, Color));
      var next := Shown(show, ValueAt(steps[i].arguments, NextColor));
      && next != color
      && exists j: nat :: IsNextMotion(steps, i, j) && Follows(steps[j]) && ValueAt(steps[j].arguments, Color) == Str(next)
  }

  ghost predicate ColorsChain(show: Shower, steps: seq<Call>) {
    forall i :: 0 <= i < |steps| ==> ChangesLine(show, steps, i)
  }

  /** The step that resumes what another one asked. */
  predicate Answers(show: Shower, steps: seq<Call>, i: nat, j: nat) {
    i < j < |steps| && Asks(steps[i]) && Resumes(steps[j]) && Approval(show, steps[i]) == Approval(show, steps[j])
  }

  /** Asks and resumes come in pairs: an ask has its own id and a later resume, a
      resume an earlier ask and an id no other resume has, and nothing moves between. */
  ghost predicate ApprovalsPair(show: Shower, steps: seq<Call>) {
    && (forall i, j :: 0 <= i < j < |steps| && Asks(steps[i]) && Asks(steps[j]) ==>
          Approval(show, steps[i]) != Approval(show, steps[j]))
    && (forall i, j :: 0 <= i < j < |steps| && Resumes(steps[i]) && Resumes(steps[j]) ==>
          Approval(show, steps[i]) != Approval(show, steps[j]))
    && (forall j :: 0 <= j < |steps| && Resumes(steps[j]) ==> exists i: nat :: Answers(show, steps, i, j))
    && (forall i :: 0 <= i < |steps| && Asks(steps[i]) ==>
          exists j: nat :: Answers(show, steps, i, j) && forall k :: i < k < j ==> !Moves(steps[k]))
  }

  ghost predicate Allowed(show: Shower, steps: seq<Call>) {
    && (forall i :: 0 <= i < |steps| ==> HasArguments(steps[i]))
    && EndsStopped(steps) && ColorsChain(show, steps) && ApprovalsPair(show, steps)
  }

  // ---------------------------------------------------------------------------
  // Colours
  // ---------------------------------------------------------------------------

  /** The next motion step, if any. */
  method NextMotion(steps: seq<Call>, i: nat) returns (next: Option<nat>)
    requires i < |steps|
    ensures next.Some? ==> next.value < |steps| && IsNextMotion(steps, i, next.value)
    ensures next.None? ==> forall k :: i < k < |steps| ==> !Moves(steps[k])
  {
    hide Moves;
    for j := i + 1 to |steps|
      invariant forall k :: i < k < j ==> !Moves(steps[k])
    {
      if Moves(steps[j]) {
        return Some(j);
      }
    }
    next := None;
  }

  lemma NextMotionIsUnique(steps: seq<Call>, i: nat, j: nat, k: nat)
    requires IsNextMotion(steps, i, j) && IsNextMotion(steps, i, k)
    ensures j == k
  {
  }

  predicate ReadsColors(step: Call) {
    Follows(step) ==> Color in step.arguments
                      && (ValueAt(step.arguments, Completion) == NEXT_COLOR ==> NextColor in step.arguments)
  }

  method CheckColors(show: Shower, steps: seq<Call>) returns (r: Result<(), PolicyError>)
    ensures r.Ok? <==> ColorsChain(show, steps) && forall i :: 0 <= i < |steps| ==> ReadsColors(steps[i])
  {
    hide Moves, IsNextMotion, Follows, Shown;
    for i := 0 to |steps|
      invariant forall k :: 0 <= k < i ==> ChangesLine(show, steps, k) && ReadsColors(steps[k])
    {
      var step := steps[i];
      if !Follows(step) {
        continue;
      }
      if Color !in step.arguments {
        return Err(NoSuchArgument);
      }
      if ValueAt(step.arguments, Completion) != NEXT_COLOR {
        continue;
      }
      if NextColor !in step.arguments {
        return Err(NoSuchArgument);
      }
      var color := Shown(show, step.arguments[Color]);
      var nextColor := Shown(show, step.arguments[NextColor]);
      if nextColor == color {
        assert !ChangesLine(show, steps, i);
        return Err(SameColor);
      }
      var next := NextMotion(steps, i);
      OnlyNext(show, steps, i, next);
      if next.None? || !Follows(steps[next.value]) {
        assert !ChangesLine(show, steps, i);
        return Err(NoLaterLine);
      }
      if ValueAt(steps[next.value].arguments, Color) != Str(nextColor) {
        assert !ChangesLine(show, steps, i);
        return Err(OtherColor);
      }
    }
    r := Ok(());
  }

  /** Whether a line's change is right is decided by the one next motion step. */
  lemma OnlyNext(show: Shower, steps: seq<Call>, i: nat, next: Option<nat>)
    requires i < |steps|
    requires next.Some? ==> IsNextMotion(steps, i, next.value)
    requires next.None? ==> forall k :: i < k < |steps| ==> !Moves(steps[k])
    ensures next.None? ==> forall j :: !IsNextMotion(steps, i, j)
    ensures next.Some? ==> forall j :: IsNextMotion(steps, i, j) ==> j == next.value
  {
    hide Moves;
    forall j | next.Some? && IsNextMotion(steps, i, j)
      ensures j == next.value
    {
      NextMotionIsUnique(steps, i, j, next.value);
    }
  }

  // ---------------------------------------------------------------------------
  // Approvals
  // ---------------------------------------------------------------------------

  predicate ReadsApproval(step: Call) {
    Asks(step) || Resumes(step) ==> ApprovalId in step.arguments
  }

  /** Where each approval was asked and resumed among the first `n` steps. */
  ghost predicate Tracked(show: Shower, steps: seq<Call>, n: nat, pending: set<string>, completed: set<string>,
                          asked: map<string, nat>, resumed: map<string, nat>)
    requires n <= |steps|
  {
    && pending !! completed && asked.Keys == pending + completed && resumed.Keys == completed
    && (forall id :: id in asked ==> asked[id] < n && Asks(steps[asked[id]]) && Approval(show, steps[asked[id]]) == id)
    && (forall i :: 0 <= i < n && Asks(steps[i]) ==>
          Approval(show, steps[i]) in asked && asked[Approval(show, steps[i])] == i)
    && (forall id :: id in resumed ==>
          && asked[id] < resumed[id] < n && Resumes(steps[resumed[id]]) && Approval(show, steps[resumed[id]]) == id
          && forall k :: asked[id] < k < resumed[id] ==> !Moves(steps[k]))
    && (forall j :: 0 <= j < n && Resumes(steps[j]) ==>
          Approval(show, steps[j]) in resumed && resumed[Approval(show, steps[j])] == j)
    && (forall id, k :: id in pending && asked[id] < k < n ==> !Moves(steps[k]))
  }

  lemma OneKind(step: Call)
    ensures (Asks(step) ==> !Resumes(step) && !Moves(step)) && (Resumes(step) ==> !Moves(step))
  {
  }

  lemma AskedTwice(show: Shower, steps: seq<Call>, n: nat, pending: set<string>, completed: set<string>,
                   asked: map<string, nat>, resumed: map<string, nat>)
    requires n < |steps| && Tracked(show, steps, n, pending, completed, asked, resumed)
    requires Asks(steps[n]) && Approval(show, steps[n]) in pending + completed
    ensures !ApprovalsPair(show, steps)
  {
    hide Moves, Asks, Resumes, Approval, Answers;
    var i := asked[Approval(show, steps[n])];
    assert i < n && Approval(show, steps[i]) == Approval(show, steps[n]);
  }

  lemma ResumedUnasked(show: Shower, steps: seq<Call>, n: nat, pending: set<string>, completed: set<string>,
                       asked: map<string, nat>, resumed: map<string, nat>)
    requires n < |steps| && Tracked(show, steps, n, pending, completed, asked, resumed)
    requires Resumes(steps[n]) && Approval(show, steps[n]) !in pending
    ensures !ApprovalsPair(show, steps)
  {
    hide Moves, Asks, Resumes, Approval;
    var id := Approval(show, steps[n]);
    if id in completed {
      assert resumed[id] < n && Approval(show, steps[resumed[id]]) == id;
    } else {
      forall i: nat
        ensures !Answers(show, steps, i, n)
      {
      }
    }
  }

  /** A pending approval has no resume yet, so its resume comes after any step that
      sees it pending, or never. */
  lemma PendingIsUnanswered(show: Shower, steps: seq<Call>, n: nat, pending: set<string>, completed: set<string>,
                            asked: map<string, nat>, resumed: map<string, nat>, id: string)
    requires n <= |steps| && Tracked(show, steps, n, pending, completed, asked, resumed) && id in pending
    ensures asked[id] < n && Asks(steps[asked[id]]) && forall j: nat :: Answers(show, steps, asked[id], j) ==> n <= j
  {
    hide Moves, Asks, Resumes, Approval;
    forall j: nat | Answers(show, steps, asked[id], j)
      ensures n <= j
    {
    }
  }

  lemma MovedWhilePending(show: Shower, steps: seq<Call>, n: nat, pending: set<string>, completed: set<string>,
                          asked: map<string, nat>, resumed: map<string, nat>)
    requires n < |steps| && Tracked(show, steps, n, pending, completed, asked, resumed) && Moves(steps[n]) && pending != {}
    ensures !ApprovalsPair(show, steps)
  {
    hide Moves, Asks, Resumes, Approval, Answers, Tracked;
    var id :| id in pending;
    PendingInAsked(show, steps, n, pending, completed, asked, resumed, id);
    PendingIsUnanswered(show, steps, n, pending, completed, asked, resumed, id);
    OneKind(steps[n]);
    forall j: nat | Answers(show, steps, asked[id], j)
      ensures n < j < |steps|
    {
      AnswerIsResume(show, steps, asked[id], j);
    }
  }

  lemma PendingInAsked(show: Shower, steps: seq<Call>, n: nat, pending: set<string>, completed: set<string>,
                       asked: map<string, nat>, resumed: map<string, nat>, id: string)
    requires n <= |steps| && Tracked(show, steps, n, pending, completed, asked, resumed) && id in pending
    ensures id in asked
  {
  }

  lemma AnswerIsResume(show: Shower, steps: seq<Call>, i: nat, j: nat)
    requires Answers(show, steps, i, j)
    ensures i < j < |steps| && Resumes(steps[j])
  {
  }

  lemma NeverAnswered(show: Shower, steps: seq<Call>, pending: set<string>, completed: set<string>,
                      asked: map<string, nat>, resumed: map<string, nat>)
    requires Tracked(show, steps, |steps|, pending, completed, asked, resumed) && pending != {}
    ensures !ApprovalsPair(show, steps)
  {
    hide Moves, Asks, Resumes, Approval, Answers, Tracked;
    var id :| id in pending;
    PendingInAsked(show, steps, |steps|, pending, completed, asked, resumed, id);
    PendingIsUnanswered(show, steps, |steps|, pending, completed, asked, resumed, id);
    forall j: nat | Answers(show, steps, asked[id], j)
      ensures false
    {
      AnswerIsResume(show, steps, asked[id], j);
    }
  }

  lemma AllAnswered(show: Shower, steps: seq<Call>, completed: set<string>, asked: map<string, nat>, resumed: map<string, nat>)
    requires Tracked(show, steps, |steps|, {}, completed, asked, resumed)
    ensures ApprovalsPair(show, steps)
  {
    hide Moves, Asks, Resumes, Approval;
    forall j | 0 <= j < |steps| && Resumes(steps[j])
      ensures exists i: nat :: Answers(show, steps, i, j)
    {
      var id := Approval(show, steps[j]);
      assert Answers(show, steps, asked[id], j);
    }
    forall i | 0 <= i < |steps| && Asks(steps[i])
      ensures exists j: nat :: Answers(show, steps, i, j) && forall k :: i < k < j ==> !Moves(steps[k])
    {
      var id := Approval(show, steps[i]);
      assert Answers(show, steps, i, resumed[id]);
    }
  }

  lemma AskTracked(show: Shower, steps: seq<Call>, n: nat, pending: set<string>, completed: set<string>,
                   asked: map<string, nat>, resumed: map<string, nat>)
    requires n < |steps| && Tracked(show, steps, n, pending, completed, asked, resumed)
    requires Asks(steps[n]) && Approval(show, steps[n]) !in pending + completed
    ensures var id := Approval(show, steps[n]);
            Tracked(show, steps, n + 1, pending + {id}, completed, asked[id := n], resumed)
  {
    hide Moves, Asks, Resumes, Approval;
    OneKind(steps[n]);
  }

  lemma ResumeTracked(show: Shower, steps: seq<Call>, n: nat, pending: set<string>, completed: set<string>,
                      asked: map<string, nat>, resumed: map<string, nat>)
    requires n < |steps| && Tracked(show, steps, n, pending, completed, asked, resumed)
    requires Resumes(steps[n]) && Approval(show, steps[n]) in pending
    ensures var id := Approval(show, steps[n]);
            Tracked(show, steps, n + 1, pending - {id}, completed + {id}, asked, resumed[id := n])
  {
    hide Moves, Asks, Resumes, Approval;
    OneKind(steps[n]);
  }

  lemma OtherTracked(show: Shower, steps: seq<Call>, n: nat, pending: set<string>, completed: set<string>,
                     asked: map<string, nat>, resumed: map<string, nat>)
    requires n < |steps| && Tracked(show, steps, n, pending, completed, asked, resumed)
    requires !Asks(steps[n]) && !Resumes(steps[n]) && (Moves(steps[n]) ==> pending == {})
    ensures Tracked(show, steps, n + 1, pending, completed, asked, resumed)
  {
    hide Moves, Asks, Resumes, Approval;
  }

  method CheckApprovals(show: Shower, steps: seq<Call>) returns (r: Result<(), PolicyError>)
    ensures r.Ok? <==> ApprovalsPair(show, steps) && forall i :: 0 <= i < |steps| ==> ReadsApproval(steps[i])
  {
    hide Moves, Asks, Resumes, Approval, Tracked, ApprovalsPair;
    var pending: set<string> := {};
    var completed: set<string> := {};
    ghost var asked: map<string, nat> := map[];
    ghost var resumed: map<string, nat> := map[];
    NothingTracked(show, steps);
    for n := 0 to |steps|
      invariant Tracked(show, steps, n, pending, completed, asked, resumed)
      invariant forall i :: 0 <= i < n ==> ReadsApproval(steps[i])
    {
      var step := steps[n];
      OneKind(step);
      if Asks(step) {
        if ApprovalId !in step.arguments { return Err(NoSuchArgument); }
        var id := Approval(show, step);
        if id in pending || id in completed {
          AskedTwice(show, steps, n, pending, completed, asked, resumed);
          return Err(RepeatedApproval);
        }
        AskTracked(show, steps, n, pending, completed, asked, resumed);
        pending, asked := pending + {id}, asked[id := n];
      } else if Resumes(step) {
        if ApprovalId !in step.arguments { return Err(NoSuchArgument); }
        var id := Approval(show, step);
        if id !in pending {
          ResumedUnasked(show, steps, n, pending, completed, asked, resumed);
          return Err(ResumeWithoutAsk);
        }
        ResumeTracked(show, steps, n, pending, completed, asked, resumed);
        pending, completed, resumed := pending - {id}, completed + {id}, resumed[id := n];
      } else {
        if Moves(step) && pending != {} {
          MovedWhilePending(show, steps, n, pending, completed, asked, resumed);
          return Err(MovesWhilePending);
        }
        OtherTracked(show, steps, n, pending, completed, asked, resumed);
      }
    }
    if pending != {} {
      NeverAnswered(show, steps, pending, completed, asked, resumed);
      return Err(NeverResumed);
    }
    AllAnswered(show, steps, completed, asked, resumed);
    r := Ok(());
  }

  lemma NothingTracked(show: Shower, steps: seq<Call>)
    ensures Tracked(show, steps, 0, {}, {}, map[], map[])
  {
  }

  // ---------------------------------------------------------------------------
  // The whole policy
  // ---------------------------------------------------------------------------

  /** The loops accept exactly the plans the policy allows. */
  method ValidatePlanPolicy(show: Shower, steps: seq<Call>) returns (r: Result<(), PolicyError>)
    ensures r.Ok? <==> Allowed(show, steps)
  {
    hide ColorsChain, ApprovalsPair, Moves;
    var motion := exists i :: 0 <= i < |steps| && Moves(steps[i]);
    if motion && steps[|steps| - 1].capability != SAFE_STOP {
      return Err(MovesToTheEnd);
    }
    r := CheckColors(show, steps);
    if r.Err? {
      return;
    }
    r := CheckApprovals(show, steps);
  }
}
