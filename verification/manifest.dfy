/** The manifest data model (`private/manifest.py`) and its lowering to a
    plain spec dict: enum members become their values, expressions their
    `{{ cel }}` text, dataclasses dicts, and `None` entries disappear while
    sentinels stay. */
module Manifest {
  import opened Wrappers
  import opened Values
  import Params

  // ---------------------------------------------------------------------
  // Lowering

  /** `_object_to_spec`. */
  function ObjectToSpec(v: Value): (r: Value)
    ensures r.Null? <==> v.Null? || (v.Member? && v.raw.Null?)
  {
    match v
    case Member(raw) => raw
    case Expr(e) => Str(Params.Display(e))
    case Record(fs) =>
      Dict(map k | k in fs && !ObjectToSpec(fs[k]).Null? :: ObjectToSpec(fs[k]))
    case List(xs) =>
      List(seq(|xs|, i requires 0 <= i < |xs| => ObjectToSpec(xs[i])))
    case Dict(m) =>
      Dict(map k | k in m && !m[k].Null? :: ObjectToSpec(m[k]))
    case _ => v
  }

  /** `_dict_to_spec` / `_dict_factory`: entries whose value is `None` are
      dropped, the others lowered. */
  function DictToSpec(m: map<string, Value>): (r: map<string, Value>)
    ensures r.Keys == set k | k in m && !m[k].Null?
    ensures forall k | k in r :: r[k] == ObjectToSpec(m[k])
  {
    ObjectToSpec(Dict(m)).entries
  }

  /** `_dataclass_to_spec`: fields are lowered first, and dropped when the
      lowered value is `None`. */
  function DataclassToSpec(fs: map<string, Value>): (r: map<string, Value>)
    ensures r.Keys == set k | k in fs && !ObjectToSpec(fs[k]).Null?
    ensures forall k | k in r :: r[k] == ObjectToSpec(fs[k])
  {
    ObjectToSpec(Record(fs)).entries
  }

  /** `list(map(_object_to_spec, xs))`. */
  function ListToSpec(xs: seq<Value>): (r: seq<Value>)
    ensures |r| == |xs|
    ensures forall i | 0 <= i < |xs| :: r[i] == ObjectToSpec(xs[i])
  {
    ObjectToSpec(List(xs)).items
  }

  /** Every enum member in `v` has a non-`None` value that is not itself an
      enum, expression or dataclass (the SDK's enums are `str` or `int`
      enums). */
  predicate ScalarEnums(v: Value)
  {
    match v
    case Member(raw) => raw.Str? || raw.Int? || raw.Bool?
    case List(xs) => forall i | 0 <= i < |xs| :: ScalarEnums(xs[i])
    case Dict(m) => forall k | k in m :: ScalarEnums(m[k])
    case Record(fs) => forall k | k in fs :: ScalarEnums(fs[k])
    case _ => true
  }

  /** The shape of a lowered spec: no enum members, expressions or
      dataclasses anywhere, and no `None` as a dict entry. */
  predicate Lowered(v: Value)
  {
    match v
    case Member(_) => false
    case Expr(_) => false
    case Record(_) => false
    case List(xs) => forall i | 0 <= i < |xs| :: Lowered(xs[i])
    case Dict(m) => forall k | k in m :: !m[k].Null? && Lowered(m[k])
    case _ => true
  }

  /** Lowering reaches the lowered shape. */
  lemma {:induction false} ObjectToSpecLowers(v: Value)
    requires ScalarEnums(v)
    ensures Lowered(ObjectToSpec(v))
    decreases v
  {
    match v
    case List(xs) =>
      forall i | 0 <= i < |xs| ensures Lowered(ObjectToSpec(xs[i])) {
        ObjectToSpecLowers(xs[i]);
      }
    case Dict(m) =>
      forall k | k in m && !m[k].Null? ensures Lowered(ObjectToSpec(m[k])) {
        ObjectToSpecLowers(m[k]);
      }
    case Record(fs) =>
      forall k | k in fs ensures Lowered(ObjectToSpec(fs[k])) {
        ObjectToSpecLowers(fs[k]);
      }
    case _ =>
  }

  /** Lowering leaves an already lowered value alone, so it is idempotent. */
  lemma {:induction false} ObjectToSpecFixesLowered(v: Value)
    requires Lowered(v)
    ensures ObjectToSpec(v) == v
    decreases v
  {
    match v
    case List(xs) =>
      forall i | 0 <= i < |xs| ensures ObjectToSpec(xs[i]) == xs[i] {
        ObjectToSpecFixesLowered(xs[i]);
      }
      assert ListToSpec(xs) == xs;
    case Dict(m) =>
      forall k | k in m ensures ObjectToSpec(m[k]) == m[k] {
        ObjectToSpecFixesLowered(m[k]);
      }
      assert DictToSpec(m) == m;
    case _ =>
  }

  /** Falsy values other than `None` survive the lowering of a dict. */
  lemma FalsyEntriesKept(m: map<string, Value>, k: string)
    requires k in m && m[k] in {Bool(false), Int(0), List([]), Dict(map[])}
    ensures k in DictToSpec(m) && DictToSpec(m)[k] == m[k]
  {
  }

  /** A sentinel survives the lowering of a dict unchanged. */
  lemma SentinelKept(m: map<string, Value>, k: string)
    requires k in m && m[k].Sentinel?
    ensures k in DictToSpec(m) && DictToSpec(m)[k] == m[k]
  {
  }

  // ---------------------------------------------------------------------
  // The manifest data model

  /** `ManifestEndpoint`, with the dataclass defaults. The trigger fields
      hold the lowered-to-be TypedDicts as `Dict` values. */
  datatype ManifestEndpoint = ManifestEndpoint(
    entryPoint: Value := Null,
    region: Value := List([]),
    platform: Value := Str("gcfv2"),
    availableMemoryMb: Value := Null,
    maxInstances: Value := Null,
    minInstances: Value := Null,
    concurrency: Value := Null,
    serviceAccountEmail: Value := Null,
    timeoutSeconds: Value := Null,
    cpu: Value := Null,
    vpc: Value := Null,
    labels: Value := Null,
    ingressSettings: Value := Null,
    secretEnvironmentVariables: Value := List([]),
    httpsTrigger: Value := Null,
    callableTrigger: Value := Null,
    eventTrigger: Value := Null,
    scheduleTrigger: Value := Null,
    blockingTrigger: Value := Null,
    taskQueueTrigger: Value := Null)
  {
    /** The dataclass fields in declaration order. */
    function Fields(): (fs: seq<(string, Value)>)
      ensures |fs| == 20 && DistinctNames(fs)
    {
      [
        ("entryPoint", entryPoint),
        ("region", region),
        ("platform", platform),
        ("availableMemoryMb", availableMemoryMb),
        ("maxInstances", maxInstances),
        ("minInstances", minInstances),
        ("concurrency", concurrency),
        ("serviceAccountEmail", serviceAccountEmail),
        ("timeoutSeconds", timeoutSeconds),
        ("cpu", cpu),
        ("vpc", vpc),
        ("labels", labels),
        ("ingressSettings", ingressSettings),
        ("secretEnvironmentVariables", secretEnvironmentVariables),
        ("httpsTrigger", httpsTrigger),
        ("callableTrigger", callableTrigger),
        ("eventTrigger", eventTrigger),
        ("scheduleTrigger", scheduleTrigger),
        ("blockingTrigger", blockingTrigger),
        ("taskQueueTrigger", taskQueueTrigger)
      ]
    }
  }

  /** One step of `_dataclass_to_spec`: the lowered field, unless `None`. */
  function PutField(m: map<string, Value>, name: string, v: Value): (r: map<string, Value>)
    ensures ObjectToSpec(v).Null? ==> r == m
    ensures !ObjectToSpec(v).Null? ==> r == m[name := ObjectToSpec(v)]
  {
    var lowered := ObjectToSpec(v);
    if lowered.Null? then m else m[name := lowered]
  }

  /** Field `name` with value `v` is present in the lowered dict exactly
      when it does not lower to `None`, and then holds the lowered value. */
  predicate Keeps(r: map<string, Value>, name: string, v: Value)
  {
    (name in r <==> !ObjectToSpec(v).Null?) && (name in r ==> r[name] == ObjectToSpec(v))
  }

  predicate DistinctNames(fs: seq<(string, Value)>)
  {
    forall i, j | 0 <= i < j < |fs| :: fs[i].0 != fs[j].0
  }

  /** `_dataclass_to_spec` over the fields in declaration order. */
  function FieldsToSpec(fs: seq<(string, Value)>): (r: map<string, Value>)
    ensures forall k | k in r :: !r[k].Null?
    ensures forall k | k in r :: exists i | 0 <= i < |fs| :: fs[i].0 == k
  {
    if |fs| == 0 then map[]
    else
      var rest := FieldsToSpec(fs[..|fs| - 1]);
      var (name, v) := fs[|fs| - 1];
      assert forall k | k in rest :: exists i | 0 <= i < |fs| :: fs[i].0 == k by {
        forall k | k in rest ensures exists i | 0 <= i < |fs| :: fs[i].0 == k {
          var i :| 0 <= i < |fs| - 1 && fs[..|fs| - 1][i].0 == k;
          assert fs[i].0 == k;
        }
      }
      PutField(rest, name, v)
  }

  /** With distinct field names, every field is kept or dropped on its own
      value alone. */
  lemma {:induction false} FieldsToSpecKeeps(fs: seq<(string, Value)>, i: nat)
    requires DistinctNames(fs) && i < |fs|
    ensures Keeps(FieldsToSpec(fs), fs[i].0, fs[i].1)
  {
    var init := fs[..|fs| - 1];
    if i < |fs| - 1 {
      assert DistinctNames(init);
      FieldsToSpecKeeps(init, i);
      assert init[i] == fs[i];
      assert fs[i].0 != fs[|fs| - 1].0;
    }
  }

  /** `_dataclass_to_spec` of an endpoint. */
  function EndpointToSpec(ep: ManifestEndpoint): (r: map<string, Value>)
    ensures forall k | k in r :: !r[k].Null?
    ensures forall k | k in r :: exists i | 0 <= i < |ep.Fields()| :: ep.Fields()[i].0 == k
    ensures forall i | 0 <= i < |ep.Fields()| :: Keeps(r, ep.Fields()[i].0, ep.Fields()[i].1)
  {
    var r := FieldsToSpec(ep.Fields());
    forall i | 0 <= i < |ep.Fields()| ensures Keeps(r, ep.Fields()[i].0, ep.Fields()[i].1) {
      FieldsToSpecKeeps(ep.Fields(), i);
    }
    r
  }

  /** A bare default endpoint lowers to the platform, an empty region list
      and an empty secret list, nothing else. */
  lemma DefaultEndpointSpec()
    ensures EndpointToSpec(ManifestEndpoint())
            == map["region" := List([]), "platform" := Str("gcfv2"),
                   "secretEnvironmentVariables" := List([])]
  {
    var fs := ManifestEndpoint().Fields();
    assert fs[1] == ("region", List([])) && fs[2] == ("platform", Str("gcfv2"))
           && fs[13] == ("secretEnvironmentVariables", List([]));
    assert forall i | 0 <= i < |fs| && i != 1 && i != 2 && i != 13 :: fs[i].1 == Null;
    SpecOfThree(EndpointToSpec(ManifestEndpoint()), fs, 1, 2, 13);
  }

  /** A lowered field list where all but three fields are `None` holds
      exactly those three, lowered. */
  lemma SpecOfThree(r: map<string, Value>, fs: seq<(string, Value)>, a: nat, b: nat, c: nat)
    requires a < |fs| && b < |fs| && c < |fs|
    requires forall k | k in r :: exists i | 0 <= i < |fs| :: fs[i].0 == k
    requires forall i | 0 <= i < |fs| :: Keeps(r, fs[i].0, fs[i].1)
    requires forall i | 0 <= i < |fs| && i != a && i != b && i != c :: fs[i].1 == Null
    requires fs[a].1 == List([]) && fs[b].1.Str? && fs[c].1 == List([])
    ensures r == map[fs[a].0 := List([]), fs[b].0 := fs[b].1, fs[c].0 := List([])]
  {
    KeysAmongThree(r, fs, a, b, c);
    assert ListToSpec([]) == [];
    assert Keeps(r, fs[a].0, fs[a].1) && Keeps(r, fs[b].0, fs[b].1) && Keeps(r, fs[c].0, fs[c].1);
    MapOfThree(r, fs[a].0, List([]), fs[b].0, fs[b].1, fs[c].0, List([]));
  }

  /** Only the three fields that are not `None` can reach the lowered dict. */
  lemma KeysAmongThree(r: map<string, Value>, fs: seq<(string, Value)>, a: nat, b: nat, c: nat)
    requires a < |fs| && b < |fs| && c < |fs|
    requires forall k | k in r :: exists i | 0 <= i < |fs| :: fs[i].0 == k
    requires forall i | 0 <= i < |fs| :: Keeps(r, fs[i].0, fs[i].1)
    requires forall i | 0 <= i < |fs| && i != a && i != b && i != c :: fs[i].1 == Null
    ensures forall k | k in r :: k == fs[a].0 || k == fs[b].0 || k == fs[c].0
  {
    forall k | k in r ensures k == fs[a].0 || k == fs[b].0 || k == fs[c].0 {
      var i :| 0 <= i < |fs| && fs[i].0 == k;
      assert Keeps(r, fs[i].0, fs[i].1);
    }
  }

  lemma MapOfThree(r: map<string, Value>, k1: string, v1: Value, k2: string, v2: Value, k3: string, v3: Value)
    requires forall k | k in r :: k == k1 || k == k2 || k == k3
    requires k1 in r && r[k1] == v1 && k2 in r && r[k2] == v2 && k3 in r && r[k3] == v3
    ensures r == map[k1 := v1, k2 := v2, k3 := v3]
  {
  }

  /** `ManifestRequiredApi`. */
  datatype RequiredApi = RequiredApi(api: string, reason: string)
  {
    function AsValue(): Value
    {
      Dict(map["api" := Str(api), "reason" := Str(reason)])
    }
  }

  /** `ManifestStack`; `params` is `None` or the registered params. */
  datatype ManifestStack = ManifestStack(
    endpoints: map<string, ManifestEndpoint>,
    specVersion: string := "v1alpha1",
    params: Option<Params.Registry> := Some([]),
    requiredApis: seq<RequiredApi> := [])

  // ---------------------------------------------------------------------
  // Params

  /** A dict of optional strings with the `None` entries left out. */
  function PresentStrings(entries: seq<(string, Option<string>)>): (r: map<string, Value>)
    ensures forall k | k in r :: r[k].Str?
    ensures forall i | 0 <= i < |entries| ::
      entries[i].1.Some? ==> entries[i].0 in r
    ensures r.Keys <= set i | 0 <= i < |entries| :: entries[i].0
    ensures (forall i, j | 0 <= i < j < |entries| :: entries[i].0 != entries[j].0) ==>
      forall i | 0 <= i < |entries| ::
        && (entries[i].0 in r <==> entries[i].1.Some?)
        && (entries[i].1.Some? ==> r[entries[i].0] == Str(entries[i].1.value))
  {
    if |entries| == 0 then map[]
    else
      var init := entries[..|entries| - 1];
      var rest := PresentStrings(init);
      var (k, v) := entries[|entries| - 1];
      assert forall i | 0 <= i < |init| :: init[i] == entries[i];
      if v.Some? then rest[k := Str(v.value)] else rest
  }

  /** `_param_input_to_spec`, before the enclosing dict is lowered. */
  function ParamInputToSpec(input: Params.ParamInput): (r: map<string, Value>)
    ensures input.OtherInput? <==> |r| == 0
    ensures input.TextInput? ==> r.Keys == {"text"}
    ensures input.ResourceInput? ==> r == map["resource" := Dict(map["type" := Str(input.resourceType)])]
    ensures input.SelectInput? ==> r.Keys == {"select"}
  {
    match input
    case TextInput(example, regex, message) =>
      map["text" := Dict(PresentStrings([("example", example), ("validationRegex", regex),
                                         ("validationErrorMessage", message)]))]
    case ResourceInput(t) =>
      map["resource" := Dict(map["type" := Str(t)])]
    case SelectInput(options) =>
      map["select" := Dict(map["options" := List(SelectOptionsToSpec(options))])]
    case OtherInput =>
      map[]
  }

  function SelectOptionsToSpec(options: seq<Params.SelectOption>): (r: seq<Value>)
    ensures |r| == |options|
    ensures forall i | 0 <= i < |options| ::
      r[i].Dict? && "value" in r[i].entries && r[i].entries["value"] == FromOperand(options[i].value)
      && ("label" in r[i].entries <==> options[i].labelText.Some?)
  {
    seq(|options|, i requires 0 <= i < |options| =>
      var o := options[i];
      Dict(if o.labelText.Some? then map["value" := FromOperand(o.value), "label" := Str(o.labelText.value)]
           else map["value" := FromOperand(o.value)]))
  }

  function OptionalString(o: Option<string>): Value
  {
    if o.Some? then Str(o.value) else Null
  }

  function OptionalBool(o: Option<bool>): Value
  {
    if o.Some? then Bool(o.value) else Null
  }

  /** The `type` tag of a declared param, or `NotImplementedError` for the
      bare base class. */
  function TypeTag(d: Params.Declared): (r: Result<string, PyError>)
    ensures r.Err? <==> d.Plain? && d.param.paramType.BaseParam?
  {
    match d
    case Secret(_) => Ok("secret")
    case Plain(p) =>
      match p.paramType
      case BoolType => Ok("boolean")
      case IntType => Ok("int")
      case StringType => Ok("string")
      case BaseParam => Err(NotImplementedError("Unsupported param type."))
  }

  /** The value a param default is written as: an expression by its
      template text, a literal as itself. */
  function DefaultToSpec(o: Params.Operand): (v: Value)
    ensures !v.Null? && !v.Expr?
  {
    match o
    case Ref(e) => Str(Params.Display(e))
    case _ => FromOperand(o)
  }

  /** The dict `_param_to_spec` builds before lowering it. */
  function ParamFields(d: Params.Declared, tag: string): (m: map<string, Value>)
    ensures "name" in m && m["name"] == Str(d.Name())
    ensures "type" in m && m["type"] == Str(tag)
    ensures "default" in m && !m["default"].Null? <==> d.Plain? && d.param.default.Some?
    ensures "input" in m <==> d.Plain? && d.param.input.Some?
    ensures "input" in m ==> m["input"].Dict?
    ensures d.Plain? && d.param.default.Some? ==> m["default"] == DefaultToSpec(d.param.default.value)
    ensures "label" in m && m["label"] == OptionalString(d.LabelText())
    ensures "description" in m && m["description"] == OptionalString(d.Description())
    ensures "immutable" in m && m["immutable"] == OptionalBool(d.Immutable())
  {
    match d
    case Plain(p) =>
      var m := map["name" := Str(p.name), "label" := OptionalString(p.labelText),
                   "description" := OptionalString(p.description),
                   "immutable" := OptionalBool(p.immutable),
                   "default" := if p.default.Some? then DefaultToSpec(p.default.value) else Null,
                   "type" := Str(tag)];
      if p.input.Some? then m["input" := Dict(ParamInputToSpec(p.input.value))] else m
    case Secret(s) =>
      map["name" := Str(s.name), "label" := OptionalString(s.labelText),
          "description" := OptionalString(s.description),
          "immutable" := OptionalBool(s.immutable), "type" := Str(tag)]
  }

  /** `_param_to_spec`: name, type tag, the label, description and
      immutability flag when set, a default only for non-secret params, and
      the input only when one is given. */
  function ParamToSpec(d: Params.Declared): (r: Result<map<string, Value>, PyError>)
    ensures r.Err? <==> TypeTag(d).Err?
    ensures r.Ok? ==> "name" in r.value && r.value["name"] == Str(d.Name())
    ensures r.Ok? ==> "type" in r.value && r.value["type"] == Str(TypeTag(d).value)
    ensures r.Ok? ==> ("default" in r.value <==> d.Plain? && d.param.default.Some?)
    ensures r.Ok? ==> ("input" in r.value <==> d.Plain? && d.param.input.Some?)
    ensures r.Ok? && d.Plain? && d.param.default.Some? ==>
      r.value["default"] == DefaultToSpec(d.param.default.value)
    ensures r.Ok? ==> ("label" in r.value <==> d.LabelText().Some?)
    ensures r.Ok? && d.LabelText().Some? ==> r.value["label"] == Str(d.LabelText().value)
    ensures r.Ok? ==> ("description" in r.value <==> d.Description().Some?)
    ensures r.Ok? && d.Description().Some? ==> r.value["description"] == Str(d.Description().value)
    ensures r.Ok? ==> ("immutable" in r.value <==> d.Immutable().Some?)
    ensures r.Ok? && d.Immutable().Some? ==> r.value["immutable"] == Bool(d.Immutable().value)
  {
    var tag :- TypeTag(d);
    var m := ParamFields(d, tag);
    Ok(DictToSpec(m))
  }

  /** `list(map(_param_to_spec, params))`, raising on the first failure. */
  function ParamsToSpec(reg: Params.Registry): (r: Result<seq<Value>, PyError>)
    ensures r.Ok? ==> |r.value| == |reg|
    ensures r.Ok? <==> forall i | 0 <= i < |reg| :: ParamToSpec(reg[i]).Ok?
  {
    if |reg| == 0 then Ok([])
    else
      var head :- ParamToSpec(reg[0]);
      var rest :- ParamsToSpec(reg[1..]);
      assert forall i | 1 <= i < |reg| :: reg[i] == reg[1..][i - 1];
      Ok([Dict(head)] + rest)
  }

  /** `_dataclass_to_spec` of the stack without its `params` field. */
  function StackToSpec(stack: ManifestStack): (r: map<string, Value>)
    ensures r.Keys == {"endpoints", "specVersion", "requiredAPIs"}
    ensures r["specVersion"] == Str(stack.specVersion)
    ensures r["endpoints"].Dict? && r["endpoints"].entries.Keys == stack.endpoints.Keys
    ensures forall name | name in stack.endpoints ::
              r["endpoints"].entries[name] == Dict(EndpointToSpec(stack.endpoints[name]))
    ensures r["requiredAPIs"] == ApisToSpec(stack.requiredApis)
  {
    map["endpoints" := Dict(map name | name in stack.endpoints :: Dict(EndpointToSpec(stack.endpoints[name]))),
        "specVersion" := Str(stack.specVersion),
        "requiredAPIs" := ApisToSpec(stack.requiredApis)]
  }

  /** The `requiredAPIs` list: one `{api, reason}` dict per entry, in order. */
  function ApisToSpec(apis: seq<RequiredApi>): (r: Value)
    ensures r.List? && |r.items| == |apis|
    ensures forall i | 0 <= i < |apis| :: r.items[i] == apis[i].AsValue()
  {
    List(seq(|apis|, i requires 0 <= i < |apis| => apis[i].AsValue()))
  }

  /** `manifest_to_spec_dict`: the stack dataclass lowered field by field
      (every endpoint lowered as a dataclass, the required APIs as the
      string dicts they are), with `params` replaced by the param specs when
      the stack has a param list and absent when it has none. */
  function ManifestToSpecDict(stack: ManifestStack): (r: Result<map<string, Value>, PyError>)
    ensures r.Ok? ==> r.value - {"params"} == StackToSpec(stack)
    ensures r.Ok? ==> ("params" in r.value <==> stack.params.Some?)
    ensures r.Ok? && stack.params.Some? ==>
              ParamsToSpec(stack.params.value).Ok? && r.value["params"] == List(ParamsToSpec(stack.params.value).value)
    ensures r.Ok? <==> stack.params.None? || ParamsToSpec(stack.params.value).Ok?
  {
    var out := StackToSpec(stack);
    if stack.params.Some? then
      var ps :- ParamsToSpec(stack.params.value);
      Ok(out["params" := List(ps)])
    else
      Ok(out)
  }
}
