/** The registry of capabilities a plan may call, and how a call's arguments are
    checked and normalised (flyto_robotics/capabilities.py). */
module Capabilities {
  import opened Wrappers
  import opened Text

  /** The name of a field of a JSON object. The names the plan format and its policy
      know have constructors of their own. */
  datatype Key =
    | ContractVersion | PlanId | ResourceId | Goal | GeneratedBy | Steps
    | Kind | Provider | Model
    | StepId | Capability | Arguments | TimeoutSeconds | OnFailure
    | Color | NextColor | Completion | ApprovalId
    | Other(name: string)

  datatype Json =
    | Null
    | Bool(b: bool)
    | Int(n: int)
    | Float(x: real)
    | Str(s: string)
    | List(items: seq<Json>)
    | Object(fields: map<Key, Json>)

  datatype PlanError =
    | NotAnObject | UnknownFields | MissingFields | BadVersion | BadKind | NotSafe | NotText | NotANumber | OutOfRange
    | BadSteps | NotRegistered | BadArgument | MissingArgument | MissingConditional | UnsupportedType | BadPolicy | DuplicateStep
    | NotAllowed

  const MAX_TEXT := 128

  /** Python's NFKC normalisation, of which only this is used: normalising twice is
      normalising once, and a part of a normalised text is normalised. */
  type Normalizer = string -> string

  ghost predicate Normalizes(nfkc: Normalizer) {
    && (forall s :: nfkc(nfkc(s)) == nfkc(s))
    && (forall s :: nfkc(s) == s ==> nfkc(Strip(s)) == Strip(s))
  }

  predicate IsAlphanumeric(c: char) {
    'A' <= c <= 'Z' || 'a' <= c <= 'z' || '0' <= c <= '9'
  }

  predicate IsSafe(s: string) {
    && 1 <= |s| <= 128 && IsAlphanumeric(s[0])
    && forall i :: 0 <= i < |s| ==> IsAlphanumeric(s[i]) || s[i] in "._:-"
  }

  predicate IsControl(c: char) {
    c as int < 32 || 127 <= c as int < 160
  }

  /** One to 128 characters, none of them a control character. They are at most 512
      bytes of UTF-8, four for each, so that bound never decides. */
  predicate IsPrintable(s: string) {
    1 <= |s| <= MAX_TEXT && forall i :: 0 <= i < |s| ==> !IsControl(s[i])
  }

  datatype ValueType = NumberType | BooleanType | StringType | TextType | UnknownType

  datatype ArgumentSpec = ArgumentSpec(name: Key, valueType: ValueType, required: bool, minimum: Option<real>,
                                       maximum: Option<real>, choices: seq<string>, default: Option<Json>,
                                       requiredWhen: Option<(Key, Json)>)

  function CheckedNumber(spec: ArgumentSpec, x: real): Result<Json, PlanError> {
    if spec.minimum.Some? && x < spec.minimum.value then Err(BadArgument)
    else if spec.maximum.Some? && x > spec.maximum.value then Err(BadArgument)
    else Ok(Float(x))
  }

  /** One argument, normalised: a number as a float, a text trimmed. */
  function Validated(nfkc: Normalizer, spec: ArgumentSpec, value: Json): Result<Json, PlanError> {
    match spec.valueType
    case NumberType =>
      (match value
       case Int(n) => CheckedNumber(spec, n as real)
       case Float(x) => CheckedNumber(spec, x)
       case _ => Err(BadArgument))
    case BooleanType => if value.Bool? then Ok(value) else Err(BadArgument)
    case StringType =>
      if !value.Str? || !IsSafe(value.s) then Err(BadArgument)
      else if spec.choices != [] && value.s !in spec.choices then Err(BadArgument)
      else Ok(value)
    case TextType =>
      if !value.Str? then Err(BadArgument)
      else
        var text := Strip(nfkc(value.s));
        if IsPrintable(text) then Ok(Str(text)) else Err(BadArgument)
    case UnknownType => Err(UnsupportedType)
  }

  /** Normalising an argument a second time changes nothing. */
  lemma ValidatedIsIdempotent(nfkc: Normalizer, spec: ArgumentSpec, value: Json)
    requires Normalizes(nfkc) && Validated(nfkc, spec, value).Ok?
    ensures Validated(nfkc, spec, Validated(nfkc, spec, value).value) == Validated(nfkc, spec, value)
  {
    hide IsSafe, IsPrintable, Strip;
    if spec.valueType.TextType? {
      StripIdempotent(nfkc(value.s));
      assert nfkc(nfkc(value.s)) == nfkc(value.s);
    }
  }

  // ---------------------------------------------------------------------------
  // A whole call
  // ---------------------------------------------------------------------------

  datatype Definition = Definition(name: string, arguments: seq<ArgumentSpec>)

  /** Specs by name: a later spec of a name replaces the earlier one in its place. */
  function WithSpec(specs: seq<ArgumentSpec>, spec: ArgumentSpec): seq<ArgumentSpec> {
    if specs == [] then [spec]
    else if specs[0].name == spec.name then [spec] + specs[1..]
    else [specs[0]] + WithSpec(specs[1..], spec)
  }

  function SpecsOf(arguments: seq<ArgumentSpec>): seq<ArgumentSpec> {
    if arguments == [] then [] else WithSpec(SpecsOf(arguments[..|arguments| - 1]), arguments[|arguments| - 1])
  }

  predicate UniqueNames(specs: seq<ArgumentSpec>) {
    forall i, j :: 0 <= i < j < |specs| ==> specs[i].name != specs[j].name
  }

  function Names(specs: seq<ArgumentSpec>): set<Key> {
    set s | s in specs :: s.name
  }

  /** The arguments normalised by the first specs. */
  function Filled(nfkc: Normalizer, specs: seq<ArgumentSpec>, raw: map<Key, Json>): Result<map<Key, Json>, PlanError> {
    if specs == [] then Ok(map[])
    else
      var so := Filled(nfkc, specs[..|specs| - 1], raw);
      if so.Err? then so
      else
        var spec := specs[|specs| - 1];
        if spec.name in raw then
          var checked := Validated(nfkc, spec, raw[spec.name]);
          if checked.Err? then Err(checked.error) else Ok(so.value[spec.name := checked.value])
        else if spec.required then Err(MissingArgument)
        else if spec.default.Some? then Ok(so.value[spec.name := spec.default.value])
        else so
  }

  function ValueAt(arguments: map<Key, Json>, key: Key): Json {
    if key in arguments then arguments[key] else Null
  }

  predicate IsNumeric(j: Json) {
    j.Bool? || j.Int? || j.Float?
  }

  function Amount(j: Json): real
    requires IsNumeric(j)
  {
    match j
    case Bool(b) => if b then 1.0 else 0.0
    case Int(n) => n as real
    case Float(x) => x
  }

  /** Python's `==`: booleans and numbers by their amount, the rest by structure. */
  predicate Equals(a: Json, b: Json) {
    if IsNumeric(a) || IsNumeric(b) then IsNumeric(a) && IsNumeric(b) && Amount(a) == Amount(b)
    else
      match a
      case List(items) =>
        b.List? && |items| == |b.items| && forall i :: 0 <= i < |items| ==> Equals(items[i], b.items[i])
      case Object(fields) =>
        b.Object? && fields.Keys == b.fields.Keys && forall k :: k in fields ==> Equals(fields[k], b.fields[k])
      case _ => a == b
  }

  /** Every argument another one calls for is there. */
  predicate ConditionsMet(specs: seq<ArgumentSpec>, arguments: map<Key, Json>) {
    forall i :: 0 <= i < |specs| ==>
      specs[i].requiredWhen.Some? && Equals(ValueAt(arguments, specs[i].requiredWhen.value.0), specs[i].requiredWhen.value.1)
      ==> specs[i].name in arguments
  }

  function ValidatedArguments(nfkc: Normalizer, d: Definition, raw: Json): Result<map<Key, Json>, PlanError> {
    if !raw.Object? then Err(NotAnObject)
    else
      var specs := SpecsOf(d.arguments);
      if !(raw.fields.Keys <= Names(specs)) then Err(UnknownFields)
      else
        var filled := Filled(nfkc, specs, raw.fields);
        if filled.Err? then filled
        else if ConditionsMet(specs, filled.value) then filled
        else Err(MissingConditional)
  }

  /** A failing prefix fails the whole. */
  lemma {:induction false} FilledFails(nfkc: Normalizer, specs: seq<ArgumentSpec>, i: nat, raw: map<Key, Json>)
    requires i <= |specs|
    ensures Filled(nfkc, specs[..i], raw).Err? ==> Filled(nfkc, specs, raw) == Filled(nfkc, specs[..i], raw)
  {
    if i < |specs| {
      assert specs[..|specs| - 1][..i] == specs[..i];
      FilledFails(nfkc, specs[..|specs| - 1], i, raw);
    } else {
      assert specs[..i] == specs;
    }
  }

  /** The specs as the dictionary the loops below go through. */
  method CollectSpecs(arguments: seq<ArgumentSpec>) returns (specs: seq<ArgumentSpec>)
    ensures specs == SpecsOf(arguments)
  {
    specs := [];
    for i := 0 to |arguments|
      invariant specs == SpecsOf(arguments[..i])
    {
      assert arguments[..i + 1][..i] == arguments[..i];
      specs := WithSpec(specs, arguments[i]);
    }
    assert arguments[..|arguments|] == arguments;
  }

  method FillIn(nfkc: Normalizer, specs: seq<ArgumentSpec>, raw: map<Key, Json>) returns (r: Result<map<Key, Json>, PlanError>)
    ensures r == Filled(nfkc, specs, raw)
  {
    hide Validated;
    var normalized: map<Key, Json> := map[];
    for i := 0 to |specs|
      invariant Filled(nfkc, specs[..i], raw) == Ok(normalized)
    {
      assert specs[..i + 1][..i] == specs[..i];
      var spec := specs[i];
      FilledFails(nfkc, specs, i + 1, raw);
      if spec.name in raw {
        var checked := Validated(nfkc, spec, raw[spec.name]);
        if checked.Err? {
          return Err(checked.error);
        }
        normalized := normalized[spec.name := checked.value];
      } else if spec.required {
        return Err(MissingArgument);
      } else if spec.default.Some? {
        normalized := normalized[spec.name := spec.default.value];
      }
    }
    assert specs[..|specs|] == specs;
    r := Ok(normalized);
  }

  /** Filling in the arguments and then looking for what they call for. */
  method ValidateArguments(nfkc: Normalizer, d: Definition, raw: Json) returns (r: Result<map<Key, Json>, PlanError>)
    ensures r == ValidatedArguments(nfkc, d, raw)
  {
    hide SpecsOf, Filled, Validated;
    if !raw.Object? {
      return Err(NotAnObject);
    }
    var specs := CollectSpecs(d.arguments);
    if !(raw.fields.Keys <= Names(specs)) {
      return Err(UnknownFields);
    }
    r := FillIn(nfkc, specs, raw.fields);
    if r.Err? {
      return;
    }
    for i := 0 to |specs|
      invariant forall k :: 0 <= k < i ==>
                  && specs[k].requiredWhen.Some?
                  && Equals(ValueAt(r.value, specs[k].requiredWhen.value.0), specs[k].requiredWhen.value.1)
                  ==> specs[k].name in r.value
    {
      var spec := specs[i];
      if spec.requiredWhen.Some? && Equals(ValueAt(r.value, spec.requiredWhen.value.0), spec.requiredWhen.value.1)
         && spec.name !in r.value {
        return Err(MissingConditional);
      }
    }
  }

  // ---------------------------------------------------------------------------
  // Normalised arguments stay
  // ---------------------------------------------------------------------------

  lemma NamesCons(s: ArgumentSpec, rest: seq<ArgumentSpec>)
    ensures Names([s] + rest) == {s.name} + Names(rest)
    ensures UniqueNames([s] + rest) <==> UniqueNames(rest) && s.name !in Names(rest)
  {
    var all := [s] + rest;
    forall r | r in rest && UniqueNames(all)
      ensures r.name != s.name
    {
      var k :| 0 <= k < |rest| && rest[k] == r;
      assert all[k + 1] == r && all[0] == s;
    }
    if UniqueNames(all) {
      forall i, j | 0 <= i < j < |rest|
        ensures rest[i].name != rest[j].name
      {
        assert all[i + 1].name != all[j + 1].name;
      }
    }
  }

  lemma {:induction false} WithSpecNames(specs: seq<ArgumentSpec>, spec: ArgumentSpec)
    requires UniqueNames(specs)
    ensures UniqueNames(WithSpec(specs, spec)) && Names(WithSpec(specs, spec)) == Names(specs) + {spec.name}
    ensures forall s :: s in WithSpec(specs, spec) ==> s == spec || s in specs
  {
    hide UniqueNames, Names;
    if specs == [] {
      NamesCons(spec, []);
      assert [spec] + [] == [spec];
      NoNames();
    } else {
      var rest := specs[1..];
      assert specs == [specs[0]] + rest;
      NamesCons(specs[0], rest);
      if specs[0].name == spec.name {
        NamesCons(spec, rest);
      } else {
        WithSpecNames(rest, spec);
        NamesCons(specs[0], WithSpec(rest, spec));
      }
    }
  }

  lemma NoNames()
    ensures Names([]) == {} && UniqueNames([])
  {
  }

  lemma {:induction false} SpecsAreUnique(arguments: seq<ArgumentSpec>)
    ensures UniqueNames(SpecsOf(arguments))
    ensures forall s :: s in SpecsOf(arguments) ==> s in arguments
  {
    if arguments != [] {
      SpecsAreUnique(arguments[..|arguments| - 1]);
      WithSpecNames(SpecsOf(arguments[..|arguments| - 1]), arguments[|arguments| - 1]);
    }
  }

  /** Every default an argument may take is one the argument itself accepts as it is. */
  predicate DefaultsHold(nfkc: Normalizer, specs: seq<ArgumentSpec>) {
    forall s :: s in specs && s.default.Some? ==> Validated(nfkc, s, s.default.value) == Ok(s.default.value)
  }

  /** Arguments a second pass leaves alone: each of them already normal, and none
      missing that is required or has a default. */
  predicate Settled(nfkc: Normalizer, specs: seq<ArgumentSpec>, arguments: map<Key, Json>) {
    forall s :: s in specs ==>
      if s.name in arguments then Validated(nfkc, s, arguments[s.name]) == Ok(arguments[s.name])
      else !s.required && s.default.None?
  }

  /** One more spec settled: its argument normal, or absent and not wanted. */
  lemma SettledMore(nfkc: Normalizer, front: seq<ArgumentSpec>, spec: ArgumentSpec, before: map<Key, Json>, after: map<Key, Json>)
    requires Settled(nfkc, front, before) && before.Keys <= Names(front) && spec.name !in Names(front)
    requires || (spec.name in after && after == before[spec.name := after[spec.name]]
                 && Validated(nfkc, spec, after[spec.name]) == Ok(after[spec.name]))
             || (after == before && !spec.required && spec.default.None?)
    ensures Settled(nfkc, front + [spec], after) && after.Keys <= Names(front + [spec])
  {
    hide Validated;
    forall s | s in front
      ensures s.name in Names(front) && s.name != spec.name
    {
    }
    assert Names(front + [spec]) == Names(front) + {spec.name};
  }

  lemma {:induction false} FilledSettles(nfkc: Normalizer, specs: seq<ArgumentSpec>, raw: map<Key, Json>)
    requires Normalizes(nfkc) && UniqueNames(specs) && DefaultsHold(nfkc, specs) && Filled(nfkc, specs, raw).Ok?
    ensures Settled(nfkc, specs, Filled(nfkc, specs, raw).value) && Filled(nfkc, specs, raw).value.Keys <= Names(specs)
  {
    hide Validated, Normalizes, Settled, Names, DefaultsHold, UniqueNames;
    if specs == [] {
      NothingSettled(nfkc);
    } else {
      var front, spec := specs[..|specs| - 1], specs[|specs| - 1];
      assert specs == front + [spec];
      FrontHolds(nfkc, specs);
      FilledSettles(nfkc, front, raw);
      if spec.name in raw {
        ValidatedIsIdempotent(nfkc, spec, raw[spec.name]);
      }
      NotAmong(specs);
      SettledMore(nfkc, front, spec, Filled(nfkc, front, raw).value, Filled(nfkc, specs, raw).value);
    }
  }

  lemma NothingSettled(nfkc: Normalizer)
    ensures Settled(nfkc, [], map[])
  {
  }

  lemma FrontHolds(nfkc: Normalizer, specs: seq<ArgumentSpec>)
    requires specs != [] && UniqueNames(specs) && DefaultsHold(nfkc, specs)
    ensures UniqueNames(specs[..|specs| - 1]) && DefaultsHold(nfkc, specs[..|specs| - 1])
    ensures var s := specs[|specs| - 1]; s.default.Some? ==> Validated(nfkc, s, s.default.value) == Ok(s.default.value)
  {
    hide Validated;
  }

  /** The last spec's name is not one of the others'. */
  lemma NotAmong(specs: seq<ArgumentSpec>)
    requires UniqueNames(specs) && specs != []
    ensures specs[|specs| - 1].name !in Names(specs[..|specs| - 1])
  {
  }

  function Only(arguments: map<Key, Json>, keys: set<Key>): map<Key, Json> {
    map k | k in arguments && k in keys :: arguments[k]
  }

  lemma OnlyMore(arguments: map<Key, Json>, keys: set<Key>, key: Key)
    ensures Only(arguments, keys + {key}) == if key in arguments then Only(arguments, keys)[key := arguments[key]]
                                             else Only(arguments, keys)
    ensures Only(arguments, {}) == map[]
  {
  }

  lemma SettledFront(nfkc: Normalizer, specs: seq<ArgumentSpec>, arguments: map<Key, Json>)
    requires specs != [] && UniqueNames(specs) && Settled(nfkc, specs, arguments)
    ensures var front, spec := specs[..|specs| - 1], specs[|specs| - 1];
            && UniqueNames(front) && Settled(nfkc, front, arguments) && Names(specs) == Names(front) + {spec.name}
            && if spec.name in arguments then Validated(nfkc, spec, arguments[spec.name]) == Ok(arguments[spec.name])
               else !spec.required && spec.default.None?
  {
    hide Validated;
    assert specs == specs[..|specs| - 1] + [specs[|specs| - 1]];
  }

  lemma {:induction false} SettledStays(nfkc: Normalizer, specs: seq<ArgumentSpec>, arguments: map<Key, Json>)
    requires UniqueNames(specs) && Settled(nfkc, specs, arguments)
    ensures Filled(nfkc, specs, arguments) == Ok(Only(arguments, Names(specs)))
  {
    hide Validated, Settled, UniqueNames, Names, Only;
    if specs == [] {
      NoNames();
      OnlyMore(arguments, {}, Goal);
    } else {
      SettledFront(nfkc, specs, arguments);
      SettledStays(nfkc, specs[..|specs| - 1], arguments);
      OnlyMore(arguments, Names(specs[..|specs| - 1]), specs[|specs| - 1].name);
    }
  }

  /** Normalising the arguments of a call is idempotent, for any definition whose
      defaults satisfy their own specs. */
  lemma ValidatedArgumentsStay(nfkc: Normalizer, d: Definition, raw: Json)
    requires Normalizes(nfkc) && DefaultsHold(nfkc, d.arguments) && ValidatedArguments(nfkc, d, raw).Ok?
    ensures ValidatedArguments(nfkc, d, Object(ValidatedArguments(nfkc, d, raw).value)) == ValidatedArguments(nfkc, d, raw)
  {
    hide Validated, Normalizes, SpecsOf, Filled;
    var specs := SpecsOf(d.arguments);
    SpecsAreUnique(d.arguments);
    FilledSettles(nfkc, specs, raw.fields);
    var arguments := Filled(nfkc, specs, raw.fields).value;
    SettledStays(nfkc, specs, arguments);
    assert Only(arguments, Names(specs)) == arguments;
  }
}
