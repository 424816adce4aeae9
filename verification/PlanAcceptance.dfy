/** Which arguments and plans are accepted, said of the values alone
    (flyto_robotics/capabilities.py, flyto_robotics/ai_planner.py). */
module PlanAcceptance {
  import opened Wrappers
  import opened Text
  import opened Capabilities
  import opened PlanPolicy
  import opened PlanCodec

  // ---------------------------------------------------------------------------
  // One argument
  // ---------------------------------------------------------------------------

  /** A value as an argument of this kind holds it: a number as a float, a text
      trimmed. */
  function Normalised(nfkc: Normalizer, kind: ValueType, value: Json): Json {
    if kind == NumberType && value.Int? then Float(value.n as real)
    else if kind == TextType && value.Str? then Str(Strip(nfkc(value.s)))
    else value
  }

  /** A value an argument of this spec can hold: within both bounds, one of the choices,
      printable. */
  predicate Meets(spec: ArgumentSpec, v: Json) {
    match spec.valueType
    case NumberType =>
      && v.Float? && (spec.minimum.Some? ==> spec.minimum.value <= v.x) && (spec.maximum.Some? ==> v.x <= spec.maximum.value)
    case BooleanType => v.Bool?
    case StringType => v.Str? && IsSafe(v.s) && (spec.choices == [] || v.s in spec.choices)
    case TextType => v.Str? && 1 <= |v.s| <= 128 && forall i :: 0 <= i < |v.s| ==> !IsControl(v.s[i])
    case UnknownType => false
  }

  lemma ArgumentAcceptedExactlyWhen(nfkc: Normalizer, spec: ArgumentSpec, value: Json)
    ensures Validated(nfkc, spec, value).Ok? <==> Meets(spec, Normalised(nfkc, spec.valueType, value))
    ensures Validated(nfkc, spec, value).Ok? ==>
              Validated(nfkc, spec, value).value == Normalised(nfkc, spec.valueType, value)
  {
    hide Strip, IsSafe;
  }

  // ---------------------------------------------------------------------------
  // The arguments of a call
  // ---------------------------------------------------------------------------

  /** What a call gives for a spec may be held, or may be left out. */
  predicate MayGive(nfkc: Normalizer, spec: ArgumentSpec, raw: map<Key, Json>) {
    if spec.name in raw then Meets(spec, Normalised(nfkc, spec.valueType, raw[spec.name])) else !spec.required
  }

  /** What is held of a spec: what was given, normalised, or else its default. */
  predicate Holds(nfkc: Normalizer, spec: ArgumentSpec, raw: map<Key, Json>, arguments: map<Key, Json>) {
    if spec.name in raw || spec.default.Some?
    then && spec.name in arguments
         && arguments[spec.name] == if spec.name in raw then Normalised(nfkc, spec.valueType, raw[spec.name])
                                    else spec.default.value
    else spec.name !in arguments
  }

  /** All of them hold what they should and there is nothing else. */
  predicate HoldsAll(nfkc: Normalizer, specs: seq<ArgumentSpec>, raw: map<Key, Json>, arguments: map<Key, Json>) {
    arguments.Keys <= Names(specs) && forall s :: s in specs ==> Holds(nfkc, s, raw, arguments)
  }

  lemma HoldsMore(nfkc: Normalizer, front: seq<ArgumentSpec>, spec: ArgumentSpec, raw: map<Key, Json>,
                  before: map<Key, Json>, after: map<Key, Json>)
    requires HoldsAll(nfkc, front, raw, before) && spec.name !in Names(front)
    requires after == before || (spec.name in after && after == before[spec.name := after[spec.name]])
    requires Holds(nfkc, spec, raw, after)
    ensures HoldsAll(nfkc, front + [spec], raw, after)
  {
    hide Normalised;
    assert Names(front + [spec]) == Names(front) + {spec.name};
    forall s | s in front
      ensures Holds(nfkc, s, raw, after)
    {
      assert s.name in Names(front);
      assert Holds(nfkc, s, raw, before);
    }
  }

  lemma {:induction false} FilledExactlyWhen(nfkc: Normalizer, specs: seq<ArgumentSpec>, raw: map<Key, Json>)
    requires UniqueNames(specs)
    ensures Filled(nfkc, specs, raw).Ok? <==> forall s :: s in specs ==> MayGive(nfkc, s, raw)
    ensures Filled(nfkc, specs, raw).Ok? ==> HoldsAll(nfkc, specs, raw, Filled(nfkc, specs, raw).value)
  {
    hide Validated, Meets, Normalised, HoldsAll, Names, UniqueNames;
    if specs == [] {
      NothingHeld(nfkc, raw);
    } else {
      var front, spec := specs[..|specs| - 1], specs[|specs| - 1];
      assert specs == front + [spec];
      assert UniqueNames(front) by { UniqueFront(specs); }
      FilledExactlyWhen(nfkc, front, raw);
      assert (forall s :: s in specs ==> MayGive(nfkc, s, raw))
             <==> (forall s :: s in front ==> MayGive(nfkc, s, raw)) && MayGive(nfkc, spec, raw);
      if spec.name in raw {
        ArgumentAcceptedExactlyWhen(nfkc, spec, raw[spec.name]);
      }
      if Filled(nfkc, specs, raw).Ok? {
        NotAmong(specs);
        NotHeld(nfkc, front, spec, raw, Filled(nfkc, front, raw).value);
        HoldsMore(nfkc, front, spec, raw, Filled(nfkc, front, raw).value, Filled(nfkc, specs, raw).value);
      }
    }
  }

  lemma UniqueFront(specs: seq<ArgumentSpec>)
    requires specs != [] && UniqueNames(specs)
    ensures UniqueNames(specs[..|specs| - 1])
  {
  }

  lemma NothingHeld(nfkc: Normalizer, raw: map<Key, Json>)
    ensures HoldsAll(nfkc, [], raw, map[])
  {
  }

  lemma NotHeld(nfkc: Normalizer, front: seq<ArgumentSpec>, spec: ArgumentSpec, raw: map<Key, Json>, before: map<Key, Json>)
    requires HoldsAll(nfkc, front, raw, before) && spec.name !in Names(front)
    ensures spec.name !in before
  {
  }

  /** The spec of a name is the last one declared under it. */
  lemma {:induction false} SpecsAreLast(arguments: seq<ArgumentSpec>)
    ensures forall s :: s in SpecsOf(arguments) <==> IsLast(arguments, s)
  {
    hide IsLast;
    if arguments == [] {
      forall s ensures !IsLast(arguments, s) { NoneIsLast(s); }
    } else {
      var front, spec := arguments[..|arguments| - 1], arguments[|arguments| - 1];
      SpecsAreLast(front);
      SpecsAreUnique(front);
      WithSpecReplaces(SpecsOf(front), spec);
      forall s
        ensures s in SpecsOf(arguments) <==> IsLast(arguments, s)
      {
        LastOfMore(front, spec, s);
        assert arguments == front + [spec];
      }
    }
  }

  ghost predicate IsLast(arguments: seq<ArgumentSpec>, s: ArgumentSpec) {
    exists i :: 0 <= i < |arguments| && arguments[i] == s && NoneLater(arguments, i)
  }

  predicate NoneLater(arguments: seq<ArgumentSpec>, i: nat)
    requires i < |arguments|
  {
    forall k :: i < k < |arguments| ==> arguments[k].name != arguments[i].name
  }

  lemma NoneIsLast(s: ArgumentSpec)
    ensures !IsLast([], s)
  {
  }

  lemma LastOfMore(front: seq<ArgumentSpec>, spec: ArgumentSpec, s: ArgumentSpec)
    ensures IsLast(front + [spec], s) <==> s == spec || (IsLast(front, s) && s.name != spec.name)
  {
    var all := front + [spec];
    assert all[|front|] == spec && NoneLater(all, |front|);
    if IsLast(front, s) && s.name != spec.name {
      var i :| 0 <= i < |front| && front[i] == s && NoneLater(front, i);
      assert all[i] == s && NoneLater(all, i);
    }
    if IsLast(all, s) && s != spec {
      var i :| 0 <= i < |all| && all[i] == s && NoneLater(all, i);
      assert front[i] == s && all[|front|].name != all[i].name;
      forall k | i < k < |front|
        ensures front[k].name != front[i].name
      {
        assert all[k].name != all[i].name;
      }
      assert NoneLater(front, i);
    }
  }

  lemma {:induction false} WithSpecReplaces(specs: seq<ArgumentSpec>, spec: ArgumentSpec)
    requires UniqueNames(specs)
    ensures forall s :: s in WithSpec(specs, spec) <==> s == spec || (s in specs && s.name != spec.name)
  {
    if specs != [] {
      assert specs == [specs[0]] + specs[1..];
      NamesCons(specs[0], specs[1..]);
      if specs[0].name == spec.name {
        forall s | s in specs[1..]
          ensures s.name != spec.name
        {
          assert s.name in Names(specs[1..]);
        }
      } else {
        WithSpecReplaces(specs[1..], spec);
      }
    }
  }

  /** What is held is settled by what was given. */
  lemma HeldIsOne(nfkc: Normalizer, specs: seq<ArgumentSpec>, raw: map<Key, Json>, a: map<Key, Json>, b: map<Key, Json>)
    requires HoldsAll(nfkc, specs, raw, a) && HoldsAll(nfkc, specs, raw, b)
    ensures a == b
  {
    hide Normalised;
    forall k | k in a || k in b
      ensures k in a && k in b && a[k] == b[k]
    {
      var s :| s in specs && s.name == k;
      assert Holds(nfkc, s, raw, a) && Holds(nfkc, s, raw, b);
    }
  }

  /** An object of known names, each given one meeting its spec and none required missing;
      what is held of it; and every argument that calls for among it. */
  predicate AreArguments(nfkc: Normalizer, d: Definition, raw: Json, arguments: map<Key, Json>) {
    var specs := SpecsOf(d.arguments);
    && raw.Object? && raw.fields.Keys <= Names(specs)
    && (forall s :: s in specs ==> MayGive(nfkc, s, raw.fields))
    && HoldsAll(nfkc, specs, raw.fields, arguments) && ConditionsMet(specs, arguments)
  }

  /** The arguments of a call are accepted, as these, exactly when they say them. */
  lemma ArgumentsAcceptedExactlyWhen(nfkc: Normalizer, d: Definition, raw: Json, arguments: map<Key, Json>)
    ensures ValidatedArguments(nfkc, d, raw) == Ok(arguments) <==> AreArguments(nfkc, d, raw, arguments)
  {
    hide SpecsOf, Filled, MayGive, HoldsAll, ConditionsMet, Names;
    SpecsAreUnique(d.arguments);
    var specs := SpecsOf(d.arguments);
    if raw.Object? {
      FilledExactlyWhen(nfkc, specs, raw.fields);
      var filled := Filled(nfkc, specs, raw.fields);
      if filled.Ok? && HoldsAll(nfkc, specs, raw.fields, arguments) {
        HeldIsOne(nfkc, specs, raw.fields, arguments, filled.value);
      }
    }
  }

  /** A value with every number and boolean as the amount it is. */
  function ByAmount(j: Json): Json {
    match j
    case Bool(b) => Float(if b then 1.0 else 0.0)
    case Int(n) => Float(n as real)
    case List(items) => List(seq(|items|, i requires 0 <= i < |items| => ByAmount(items[i])))
    case Object(fields) => Object(map k | k in fields :: ByAmount(fields[k]))
    case _ => j
  }

  /** Two values are equal as Python has it exactly when they are the same by amount. */
  lemma {:induction false} EqualByAmount(a: Json, b: Json)
    ensures Equals(a, b) <==> ByAmount(a) == ByAmount(b)
  {
    if a.List? && b.List? {
      forall i | 0 <= i < |a.items| && |a.items| == |b.items|
        ensures Equals(a.items[i], b.items[i]) <==> ByAmount(a.items[i]) == ByAmount(b.items[i])
      {
        EqualByAmount(a.items[i], b.items[i]);
      }
      SameItems(a.items, b.items);
    } else if a.Object? && b.Object? {
      forall k | k in a.fields && k in b.fields
        ensures Equals(a.fields[k], b.fields[k]) <==> ByAmount(a.fields[k]) == ByAmount(b.fields[k])
      {
        EqualByAmount(a.fields[k], b.fields[k]);
      }
      SameFields(a.fields, b.fields);
    }
  }

  lemma SameItems(a: seq<Json>, b: seq<Json>)
    ensures ByAmount(List(a)) == ByAmount(List(b))
            <==> |a| == |b| && forall i :: 0 <= i < |a| ==> ByAmount(a[i]) == ByAmount(b[i])
  {
    var x, y := ByAmount(List(a)).items, ByAmount(List(b)).items;
    assert forall i :: 0 <= i < |a| ==> x[i] == ByAmount(a[i]);
    assert forall i :: 0 <= i < |b| ==> y[i] == ByAmount(b[i]);
  }

  lemma SameFields(a: map<Key, Json>, b: map<Key, Json>)
    ensures ByAmount(Object(a)) == ByAmount(Object(b))
            <==> a.Keys == b.Keys && forall k :: k in a ==> ByAmount(a[k]) == ByAmount(b[k])
  {
    var x, y := ByAmount(Object(a)).fields, ByAmount(Object(b)).fields;
    assert x.Keys == a.Keys && y.Keys == b.Keys;
    assert forall k :: k in a ==> x[k] == ByAmount(a[k]);
    assert forall k :: k in b ==> y[k] == ByAmount(b[k]);
  }

  /** Accepted arguments all meet their specs, when the defaults do: every number is within
      its bounds, and none wanted is missing. */
  lemma AcceptedArgumentsMeet(nfkc: Normalizer, d: Definition, raw: Json)
    requires ValidatedArguments(nfkc, d, raw).Ok?
    requires forall s :: s in d.arguments && s.default.Some? ==> Meets(s, s.default.value)
    ensures AllMeet(d, ValidatedArguments(nfkc, d, raw).value)
  {
    hide SpecsOf, Filled, Meets, ConditionsMet, Normalised;
    var arguments, specs := ValidatedArguments(nfkc, d, raw).value, SpecsOf(d.arguments);
    SpecsAreUnique(d.arguments);
    ArgumentsAcceptedExactlyWhen(nfkc, d, raw, arguments);
    forall s | s in specs
      ensures if s.name in arguments then Meets(s, arguments[s.name]) else !s.required && s.default.None?
    {
      assert Holds(nfkc, s, raw.fields, arguments) && MayGive(nfkc, s, raw.fields);
    }
  }

  /** Every argument is of a spec and meets it, and none that is required or has a default
      is missing. */
  predicate AllMeet(d: Definition, arguments: map<Key, Json>) {
    && arguments.Keys <= Names(SpecsOf(d.arguments))
    && forall s :: s in SpecsOf(d.arguments) ==>
         if s.name in arguments then Meets(s, arguments[s.name]) else !s.required && s.default.None?
  }

  // ---------------------------------------------------------------------------
  // A whole plan
  // ---------------------------------------------------------------------------

  /** A number, whichever way it is written. */
  predicate IsAmount(j: Json, x: real) {
    (j.Int? && j.n as real == x) || (j.Float? && j.x == x)
  }

  /** An object of these five fields that says this step, of a registered capability, in a
      bounded time. */
  predicate SaysStep(nfkc: Normalizer, registry: Registry, value: Json, step: Call) {
    && value.Object? && value.fields.Keys == {StepId, Capability, Arguments, TimeoutSeconds, OnFailure}
    && value.fields[StepId] == Str(step.stepId) && IsSafe(step.stepId)
    && value.fields[Capability] == Str(step.capability) && IsSafe(step.capability) && step.capability in registry
    && AreArguments(nfkc, registry[step.capability], value.fields[Arguments], step.arguments)
    && IsAmount(value.fields[TimeoutSeconds], step.timeout) && 0.1 <= step.timeout <= 3600.0
    && value.fields[OnFailure] == Str(step.onFailure) && step.onFailure in {"abort", "request_replan"}
  }

  lemma StepAcceptedExactlyWhen(nfkc: Normalizer, registry: Registry, value: Json, step: Call)
    ensures ParsedStep(nfkc, registry, value) == Ok(step) <==> SaysStep(nfkc, registry, value, step)
  {
    hide ValidatedArguments, AreArguments, IsSafe;
    if value.Object? && value.fields.Keys == STEP_KEYS && step.capability in registry {
      ArgumentsAcceptedExactlyWhen(nfkc, registry[step.capability], value.fields[Arguments], step.arguments);
    }
  }

  lemma {:induction false} StepsAcceptedExactlyWhen(nfkc: Normalizer, registry: Registry, items: seq<Json>, steps: seq<Call>)
    ensures ParsedSteps(nfkc, registry, items) == Ok(steps) <==>
              |items| == |steps| && forall i :: 0 <= i < |steps| ==> SaysStep(nfkc, registry, items[i], steps[i])
  {
    hide ParsedStep, SaysStep;
    if items != [] && steps != [] {
      var front, last := steps[..|steps| - 1], steps[|steps| - 1];
      StepsAcceptedExactlyWhen(nfkc, registry, items[..|items| - 1], front);
      StepAcceptedExactlyWhen(nfkc, registry, items[|items| - 1], last);
      assert steps == front + [last];
    }
  }

  predicate SaysSource(value: Json, source: Source) {
    && value.Object? && value.fields.Keys == {Kind, Provider, Model}
    && value.fields[Kind] == Str(source.kind) && source.kind in {"llm", "human", "deterministic_demo"}
    && value.fields[Provider] == Str(source.provider) && IsSafe(source.provider)
    && value.fields[Model] == Str(source.model) && IsSafe(source.model)
  }

  lemma SourceAcceptedExactlyWhen(value: Json, source: Source)
    ensures ParsedSource(value) == Ok(source) <==> SaysSource(value, source)
  {
    hide IsSafe;
  }

  /** An object of these six fields that says this plan: at most 64 steps of different
      names that are allowed together, and a goal. */
  ghost predicate SaysPlan(nfkc: Normalizer, show: Shower, registry: Registry, value: Json, plan: RobotPlan) {
    && value.Object? && value.fields.Keys == {ContractVersion, PlanId, ResourceId, Goal, GeneratedBy, Steps}
    && var f := value.fields;
       && f[ContractVersion] == Str(plan.contractVersion) && plan.contractVersion == "flyto.capability-plan.v1"
       && SaysSource(f[GeneratedBy], plan.generatedBy)
       && f[Steps].List? && 1 <= |f[Steps].items| == |plan.steps| <= 64
       && (forall i :: 0 <= i < |plan.steps| ==> SaysStep(nfkc, registry, f[Steps].items[i], plan.steps[i]))
       && UniqueSteps(plan.steps) && Allowed(show, plan.steps)
       && f[PlanId] == Str(plan.planId) && IsSafe(plan.planId)
       && f[ResourceId] == Str(plan.resourceId) && IsSafe(plan.resourceId)
       && f[Goal].Str? && |f[Goal].s| <= 2000 && plan.goal == Strip(f[Goal].s) != ""
       && plan.registrySnapshot == "" && plan.allowedCapabilities == [] && plan.routingConfidence == 0.0
  }

  /** A planner's answer is accepted, as this plan, exactly when it says it. */
  lemma PlanAcceptedExactlyWhen(nfkc: Normalizer, show: Shower, registry: Registry, value: Json, plan: RobotPlan)
    ensures Parsed(nfkc, show, registry, value) == Ok(plan) <==> SaysPlan(nfkc, show, registry, value, plan)
  {
    hide ParsedSteps, ParsedSource, SaysSource, SaysStep, Allowed, IsSafe, Strip, UniqueSteps;
    if value.Object? && value.fields.Keys == PLAN_KEYS {
      SourceAcceptedExactlyWhen(value.fields[GeneratedBy], plan.generatedBy);
      if value.fields[Steps].List? {
        StepsAcceptedExactlyWhen(nfkc, registry, value.fields[Steps].items, plan.steps);
      }
    }
  }

  /** Every default in the registry can be held. */
  predicate DefaultsMeet(registry: Registry) {
    forall name, s :: name in registry && s in registry[name].arguments && s.default.Some? ==> Meets(s, s.default.value)
  }

  /** A step that may be run: named safely, of a registered capability, in a bounded time,
      its arguments within their specs. */
  predicate StepMeets(registry: Registry, step: Call) {
    && IsSafe(step.stepId) && step.capability in registry && AllMeet(registry[step.capability], step.arguments)
    && 0.1 <= step.timeout <= 3600.0 && step.onFailure in {"abort", "request_replan"}
  }

  lemma {:induction false} StepsMeet(nfkc: Normalizer, registry: Registry, items: seq<Json>)
    requires DefaultsMeet(registry) && ParsedSteps(nfkc, registry, items).Ok?
    ensures var steps := ParsedSteps(nfkc, registry, items).value;
            |steps| == |items| && forall step :: step in steps ==> StepMeets(registry, step)
  {
    hide ParsedStep, StepMeets, DefaultsMeet;
    if items != [] {
      StepsMeet(nfkc, registry, items[..|items| - 1]);
      ParsedStepMeets(nfkc, registry, items[|items| - 1]);
    }
  }

  lemma ParsedStepMeets(nfkc: Normalizer, registry: Registry, value: Json)
    requires DefaultsMeet(registry) && ParsedStep(nfkc, registry, value).Ok?
    ensures StepMeets(registry, ParsedStep(nfkc, registry, value).value)
  {
    hide ValidatedArguments, AllMeet, IsSafe, ExactFields;
    var fields := ExactFields(value, STEP_KEYS).value;
    var capability := fields[Capability].s;
    assert capability in registry;
    AcceptedArgumentsMeet(nfkc, registry[capability], fields[Arguments]);
  }

  /** A parsed plan asks for nothing outside what the registry declares: at most 64 steps,
      no two of one name, allowed together, and each within its specs. */
  lemma ParsedPlanMeets(nfkc: Normalizer, show: Shower, registry: Registry, value: Json)
    requires DefaultsMeet(registry) && Parsed(nfkc, show, registry, value).Ok?
    ensures var plan := Parsed(nfkc, show, registry, value).value;
            && 1 <= |plan.steps| <= 64 && UniqueSteps(plan.steps) && Allowed(show, plan.steps)
            && (forall step :: step in plan.steps ==> StepMeets(registry, step))
            && IsSafe(plan.planId) && IsSafe(plan.resourceId) && plan.goal != "" && |plan.goal| <= 2000
            && plan.generatedBy.kind in {"llm", "human", "deterministic_demo"}
            && IsSafe(plan.generatedBy.provider) && IsSafe(plan.generatedBy.model)
  {
    hide ParsedSteps, Allowed, IsSafe, Strip, StepMeets, UniqueSteps, ExactFields;
    var fields := ExactFields(value, PLAN_KEYS).value;
    StepsMeet(nfkc, registry, fields[Steps].items);
    StripIdempotent(fields[Goal].s);
  }
}
