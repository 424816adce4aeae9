/** A planner's answer, checked and normalised, and printed again
    (flyto_robotics/ai_planner.py). */
module PlanCodec {
  import opened Wrappers
  import opened Text
  import opened Capabilities
  import opened PlanPolicy

  const PLAN_CONTRACT_VERSION := "flyto.capability-plan.v1"
  const MAX_PLAN_STEPS := 64
  const MAX_GOAL := 2000

  datatype Source = Source(kind: string, provider: string, model: string)

  datatype RobotPlan = RobotPlan(contractVersion: string, planId: string, resourceId: string, goal: string, generatedBy: Source,
                                 steps: seq<Call>, registrySnapshot: string, allowedCapabilities: seq<string>,
                                 routingConfidence: real)

  type Registry = map<string, Definition>

  // ---------------------------------------------------------------------------
  // Parsing
  // ---------------------------------------------------------------------------

  function Safe(value: Json): Result<string, PlanError> {
    if value.Str? && IsSafe(value.s) then Ok(value.s) else Err(NotSafe)
  }

  function BoundedText(value: Json, maximum: nat): Result<string, PlanError> {
    if !value.Str? || Strip(value.s) == "" || |value.s| > maximum then Err(NotText) else Ok(Strip(value.s))
  }

  function BoundedNumber(value: Json, minimum: real, maximum: real): Result<real, PlanError> {
    if !value.Int? && !value.Float? then Err(NotANumber)
    else
      var x := if value.Int? then value.n as real else value.x;
      if minimum <= x <= maximum then Ok(x) else Err(OutOfRange)
  }

  function ExactFields(value: Json, keys: set<Key>): (r: Result<map<Key, Json>, PlanError>)
    ensures r.Ok? <==> value.Object? && value.fields.Keys == keys
    ensures r.Ok? ==> r.value.Keys == keys
  {
    if !value.Object? then Err(NotAnObject)
    else if !(value.fields.Keys <= keys) then Err(UnknownFields)
    else if value.fields.Keys != keys then Err(MissingFields)
    else Ok(value.fields)
  }

  const STEP_KEYS := {StepId, Capability, Arguments, TimeoutSeconds, OnFailure}
  const SOURCE_KEYS := {Kind, Provider, Model}
  const PLAN_KEYS := {ContractVersion, PlanId, ResourceId, Goal, GeneratedBy, Steps}

  predicate IsFailurePolicy(value: Json) {
    value == Str("abort") || value == Str("request_replan")
  }

  predicate IsSourceKind(value: Json) {
    value == Str("llm") || value == Str("human") || value == Str("deterministic_demo")
  }

  function ParsedStep(nfkc: Normalizer, registry: Registry, value: Json): Result<Call, PlanError> {
    var fields :- ExactFields(value, STEP_KEYS);
    var capability :- Safe(fields[Capability]);
    if capability !in registry then Err(NotRegistered)
    else
      var arguments :- ValidatedArguments(nfkc, registry[capability], fields[Arguments]);
      if !IsFailurePolicy(fields[OnFailure]) then Err(BadPolicy)
      else
        var stepId :- Safe(fields[StepId]);
        var timeout :- BoundedNumber(fields[TimeoutSeconds], 0.1, 3600.0);
        Ok(Call(stepId, capability, arguments, timeout, fields[OnFailure].s))
  }

  function ParsedSteps(nfkc: Normalizer, registry: Registry, items: seq<Json>): Result<seq<Call>, PlanError> {
    if items == [] then Ok([])
    else
      var front :- ParsedSteps(nfkc, registry, items[..|items| - 1]);
      var last :- ParsedStep(nfkc, registry, items[|items| - 1]);
      Ok(front + [last])
  }

  function ParsedSource(value: Json): Result<Source, PlanError> {
    var fields :- ExactFields(value, SOURCE_KEYS);
    if !IsSourceKind(fields[Kind]) then Err(BadKind)
    else
      var provider :- Safe(fields[Provider]);
      var model :- Safe(fields[Model]);
      Ok(Source(fields[Kind].s, provider, model))
  }

  predicate UniqueSteps(steps: seq<Call>) {
    forall i, j :: 0 <= i < j < |steps| ==> steps[i].stepId != steps[j].stepId
  }

  /** A plan is its checked parts, if its steps are allowed together. */
  ghost function Parsed(nfkc: Normalizer, show: Shower, registry: Registry, value: Json): Result<RobotPlan, PlanError> {
    var fields :- ExactFields(value, PLAN_KEYS);
    if fields[ContractVersion] != Str(PLAN_CONTRACT_VERSION) then Err(BadVersion)
    else
      var source :- ParsedSource(fields[GeneratedBy]);
      var items := fields[Steps];
      if !items.List? || !(1 <= |items.items| <= MAX_PLAN_STEPS) then Err(BadSteps)
      else
        var steps :- ParsedSteps(nfkc, registry, items.items);
        if !UniqueSteps(steps) then Err(DuplicateStep)
        else if !Allowed(show, steps) then Err(NotAllowed)
        else
          var planId :- Safe(fields[PlanId]);
          var resourceId :- Safe(fields[ResourceId]);
          var goal :- BoundedText(fields[Goal], MAX_GOAL);
          Ok(RobotPlan(PLAN_CONTRACT_VERSION, planId, resourceId, goal, source, steps, "", [], 0.0))
  }

  lemma {:induction false} ParsedStepsFail(nfkc: Normalizer, registry: Registry, items: seq<Json>, i: nat)
    requires i <= |items|
    ensures ParsedSteps(nfkc, registry, items[..i]).Err? ==>
              ParsedSteps(nfkc, registry, items) == ParsedSteps(nfkc, registry, items[..i])
  {
    if i < |items| {
      assert items[..|items| - 1][..i] == items[..i];
      ParsedStepsFail(nfkc, registry, items[..|items| - 1], i);
    } else {
      assert items[..i] == items;
    }
  }

  method ParseSteps(nfkc: Normalizer, registry: Registry, items: seq<Json>) returns (r: Result<seq<Call>, PlanError>)
    ensures r == ParsedSteps(nfkc, registry, items)
  {
    hide ParsedStep;
    var steps: seq<Call> := [];
    for i := 0 to |items|
      invariant ParsedSteps(nfkc, registry, items[..i]) == Ok(steps)
    {
      assert items[..i + 1][..i] == items[..i];
      ParsedStepsFail(nfkc, registry, items, i + 1);
      var step := ParseStep(nfkc, registry, items[i]);
      if step.Err? {
        return Err(step.error);
      }
      steps := steps + [step.value];
    }
    assert items[..|items|] == items;
    r := Ok(steps);
  }

  method ParseStep(nfkc: Normalizer, registry: Registry, value: Json) returns (r: Result<Call, PlanError>)
    ensures r == ParsedStep(nfkc, registry, value)
  {
    hide ValidatedArguments, IsSafe;
    var fields :- ExactFields(value, STEP_KEYS);
    var capability :- Safe(fields[Capability]);
    if capability !in registry {
      return Err(NotRegistered);
    }
    var arguments :- ValidateArguments(nfkc, registry[capability], fields[Arguments]);
    if !IsFailurePolicy(fields[OnFailure]) {
      return Err(BadPolicy);
    }
    var stepId :- Safe(fields[StepId]);
    var timeout :- BoundedNumber(fields[TimeoutSeconds], 0.1, 3600.0);
    r := Ok(Call(stepId, capability, arguments, timeout, fields[OnFailure].s));
  }

  method ParsePlan(nfkc: Normalizer, show: Shower, registry: Registry, value: Json) returns (r: Result<RobotPlan, PlanError>)
    ensures r == Parsed(nfkc, show, registry, value)
  {
    hide ParsedSteps, ParsedSource, Allowed, IsSafe, Strip;
    var fields :- ExactFields(value, PLAN_KEYS);
    if fields[ContractVersion] != Str(PLAN_CONTRACT_VERSION) {
      return Err(BadVersion);
    }
    var source :- ParsedSource(fields[GeneratedBy]);
    var items := fields[Steps];
    if !items.List? || !(1 <= |items.items| <= MAX_PLAN_STEPS) {
      return Err(BadSteps);
    }
    var steps :- ParseSteps(nfkc, registry, items.items);
    if exists i, j :: 0 <= i < j < |steps| && steps[i].stepId == steps[j].stepId {
      return Err(DuplicateStep);
    }
    var policy := ValidatePlanPolicy(show, steps);
    if policy.Err? {
      return Err(NotAllowed);
    }
    var planId :- Safe(fields[PlanId]);
    var resourceId :- Safe(fields[ResourceId]);
    var goal :- BoundedText(fields[Goal], MAX_GOAL);
    r := Ok(RobotPlan(PLAN_CONTRACT_VERSION, planId, resourceId, goal, source, steps, "", [], 0.0));
  }

  // ---------------------------------------------------------------------------
  // Printing
  // ---------------------------------------------------------------------------

  function StepJson(step: Call): Json {
    Object(map[StepId := Str(step.stepId), Capability := Str(step.capability), Arguments := Object(step.arguments),
               TimeoutSeconds := Float(step.timeout), OnFailure := Str(step.onFailure)])
  }

  function StepsJson(steps: seq<Call>): seq<Json> {
    seq(|steps|, i requires 0 <= i < |steps| => StepJson(steps[i]))
  }

  function SourceJson(source: Source): Json {
    Object(map[Kind := Str(source.kind), Provider := Str(source.provider), Model := Str(source.model)])
  }

  function PlanJson(plan: RobotPlan): Json {
    Object(map[ContractVersion := Str(plan.contractVersion), PlanId := Str(plan.planId), ResourceId := Str(plan.resourceId),
               Goal := Str(plan.goal), GeneratedBy := SourceJson(plan.generatedBy), Steps := List(StepsJson(plan.steps))])
  }

  // ---------------------------------------------------------------------------
  // Round trip
  // ---------------------------------------------------------------------------

  /** Every default in the registry satisfies its own argument's spec. */
  ghost predicate DefaultsAreValid(nfkc: Normalizer, registry: Registry) {
    forall name :: name in registry ==> DefaultsHold(nfkc, registry[name].arguments)
  }

  lemma StepFields(step: Call)
    ensures var fields := ExactFields(StepJson(step), STEP_KEYS);
            && fields.Ok? && fields.value[StepId] == Str(step.stepId) && fields.value[Capability] == Str(step.capability)
            && fields.value[Arguments] == Object(step.arguments) && fields.value[TimeoutSeconds] == Float(step.timeout)
            && fields.value[OnFailure] == Str(step.onFailure)
  {
    assert StepJson(step).fields.Keys == STEP_KEYS;
  }

  lemma StepReadsBack(nfkc: Normalizer, registry: Registry, value: Json)
    requires Normalizes(nfkc) && DefaultsAreValid(nfkc, registry) && ParsedStep(nfkc, registry, value).Ok?
    ensures ParsedStep(nfkc, registry, StepJson(ParsedStep(nfkc, registry, value).value)) == ParsedStep(nfkc, registry, value)
  {
    hide ValidatedArguments, Normalizes, DefaultsHold, IsSafe, StepJson, ExactFields;
    var step := ParsedStep(nfkc, registry, value).value;
    var raw := ExactFields(value, STEP_KEYS).value[Arguments];
    ValidatedArgumentsStay(nfkc, registry[step.capability], raw);
    StepFields(step);
  }

  lemma {:induction false} StepsReadBack(nfkc: Normalizer, registry: Registry, items: seq<Json>)
    requires Normalizes(nfkc) && DefaultsAreValid(nfkc, registry) && ParsedSteps(nfkc, registry, items).Ok?
    ensures var steps := ParsedSteps(nfkc, registry, items).value;
            |steps| == |items| && ParsedSteps(nfkc, registry, StepsJson(steps)) == Ok(steps)
  {
    hide ParsedStep, StepJson, Normalizes, DefaultsAreValid;
    if items != [] {
      var front := items[..|items| - 1];
      StepsReadBack(nfkc, registry, front);
      StepReadsBack(nfkc, registry, items[|items| - 1]);
      var steps := ParsedSteps(nfkc, registry, items).value;
      var printed := StepsJson(steps);
      assert steps[..|steps| - 1] == ParsedSteps(nfkc, registry, front).value;
      assert printed[..|printed| - 1] == StepsJson(steps[..|steps| - 1]);
      assert printed[|printed| - 1] == StepJson(steps[|steps| - 1]);
    }
  }

  lemma SourceReadsBack(value: Json)
    requires ParsedSource(value).Ok?
    ensures ParsedSource(SourceJson(ParsedSource(value).value)) == ParsedSource(value)
  {
    hide IsSafe;
    assert SourceJson(ParsedSource(value).value).fields.Keys == SOURCE_KEYS;
  }

  lemma PlanFields(plan: RobotPlan)
    ensures var fields := ExactFields(PlanJson(plan), PLAN_KEYS);
            && fields.Ok?
            && fields.value[ContractVersion] == Str(plan.contractVersion) && fields.value[PlanId] == Str(plan.planId)
            && fields.value[ResourceId] == Str(plan.resourceId) && fields.value[Goal] == Str(plan.goal)
            && fields.value[GeneratedBy] == SourceJson(plan.generatedBy) && fields.value[Steps] == List(StepsJson(plan.steps))
  {
    hide SourceJson, StepsJson;
    assert PlanJson(plan).fields.Keys == PLAN_KEYS;
  }

  lemma GoalReadsBack(value: Json)
    requires BoundedText(value, MAX_GOAL).Ok?
    ensures BoundedText(Str(BoundedText(value, MAX_GOAL).value), MAX_GOAL) == BoundedText(value, MAX_GOAL)
  {
    hide Strip;
    StripIdempotent(value.s);
  }

  /** A plan that was parsed, printed and parsed again is the same plan, for any
      registry whose defaults satisfy their own specs. */
  lemma PlanReadsBack(nfkc: Normalizer, show: Shower, registry: Registry, value: Json)
    requires Normalizes(nfkc) && DefaultsAreValid(nfkc, registry) && Parsed(nfkc, show, registry, value).Ok?
    ensures Parsed(nfkc, show, registry, PlanJson(Parsed(nfkc, show, registry, value).value))
            == Parsed(nfkc, show, registry, value)
  {
    hide ParsedSteps, ParsedSource, Allowed, IsSafe, PlanJson, SourceJson, StepsJson, ExactFields, BoundedText, Normalizes,
      DefaultsAreValid, UniqueSteps;
    var plan := Parsed(nfkc, show, registry, value).value;
    var fields := ExactFields(value, PLAN_KEYS).value;
    PlanFields(plan);
    SourceReadsBack(fields[GeneratedBy]);
    StepsReadBack(nfkc, registry, fields[Steps].items);
    GoalReadsBack(fields[Goal]);
    assert |StepsJson(plan.steps)| == |plan.steps| by { StepsPrinted(plan.steps); }
  }

  lemma StepsPrinted(steps: seq<Call>)
    ensures |StepsJson(steps)| == |steps|
  {
  }
}
