/** The aggregation half of `private/serving.py`: the final `to_spec` pass,
    the merge of the required-API lists the decorators attach, and the
    assembly of the manifest tree that is dumped as YAML, with reset
    sentinels written as explicit nulls. */
module Serving {
  import opened Wrappers
  import opened Values
  import opened Strings
  import Manifest
  import Params

  // ---------------------------------------------------------------------
  // to_spec

  /** `convert_value` of `to_spec`: an enum member becomes its value (as
      is), a dict goes through `to_spec`, a list is mapped element by
      element, and anything else is returned unchanged. */
  function Convert(v: Value): (r: Value)
    ensures v.Dict? <==> r.Dict? && !v.Member?
    ensures v.List? ==> r.List? && |r.items| == |v.items|
  {
    match v
    case Member(raw) => raw
    case Dict(m) => Dict(map k | k in m && !m[k].Null? :: Convert(m[k]))
    case List(xs) => List(seq(|xs|, i requires 0 <= i < |xs| => Convert(xs[i])))
    case _ => v
  }

  /** `to_spec`: `None` entries are dropped at this level, the rest
      converted. */
  function ToSpec(data: map<string, Value>): (r: map<string, Value>)
    ensures r.Keys == set k | k in data && !data[k].Null?
    ensures forall k | k in r :: r[k] == Convert(data[k])
  {
    Convert(Dict(data)).entries
  }

  /** A value with no deferred expression and no dataclass instance
      anywhere: what `to_spec` expects, since it has no case for either. */
  predicate Plain(v: Value)
  {
    match v
    case Expr(_) => false
    case Record(_) => false
    case List(xs) => forall i | 0 <= i < |xs| :: Plain(xs[i])
    case Dict(m) => forall k | k in m :: Plain(m[k])
    case Member(raw) => Plain(raw)
    case _ => true
  }

  /** On plain values `to_spec` is the manifest lowering `_object_to_spec`:
      the two passes agree wherever both are defined. */
  lemma {:induction false} ConvertIsLowering(v: Value)
    requires Plain(v)
    ensures Convert(v) == Manifest.ObjectToSpec(v)
    decreases v
  {
    match v
    case List(xs) =>
      forall i | 0 <= i < |xs| ensures Convert(xs[i]) == Manifest.ObjectToSpec(xs[i]) {
        ConvertIsLowering(xs[i]);
      }
      assert Convert(v).items == Manifest.ListToSpec(xs);
    case Dict(m) =>
      forall k | k in m && !m[k].Null? ensures Convert(m[k]) == Manifest.ObjectToSpec(m[k]) {
        ConvertIsLowering(m[k]);
      }
      assert Convert(v).entries == Manifest.DictToSpec(m);
    case _ =>
  }

  /** A lowered manifest tree passes through `to_spec` unchanged. */
  lemma {:induction false} ConvertFixesLowered(v: Value)
    requires Manifest.Lowered(v)
    ensures Convert(v) == v
    decreases v
  {
    match v
    case List(xs) =>
      forall i | 0 <= i < |xs| ensures Convert(xs[i]) == xs[i] {
        ConvertFixesLowered(xs[i]);
      }
      assert Convert(v).items == xs;
    case Dict(m) =>
      forall k | k in m ensures Convert(m[k]) == m[k] {
        ConvertFixesLowered(m[k]);
      }
      assert Convert(v).entries == m;
    case _ =>
  }

  /** `to_spec` is idempotent on plain trees whose enums hold scalars. */
  lemma ToSpecIdempotent(data: map<string, Value>)
    requires Plain(Dict(data)) && Manifest.ScalarEnums(Dict(data))
    ensures ToSpec(ToSpec(data)) == ToSpec(data)
  {
    ConvertIsLowering(Dict(data));
    Manifest.ObjectToSpecLowers(Dict(data));
    ConvertFixesLowered(Convert(Dict(data)));
  }

  /** A reset sentinel survives `to_spec`, so a reset field reaches the
      YAML dump. */
  lemma ToSpecKeepsSentinel(data: map<string, Value>, k: string)
    requires k in data && data[k].Sentinel?
    ensures k in ToSpec(data) && ToSpec(data)[k] == data[k]
  {
  }

  // ---------------------------------------------------------------------
  // Sentinels in the YAML dump

  predicate NoSentinels(v: Value)
  {
    match v
    case Sentinel(_) => false
    case List(xs) => forall i | 0 <= i < |xs| :: NoSentinels(xs[i])
    case Dict(m) => forall k | k in m :: NoSentinels(m[k])
    case _ => true
  }

  /** The YAML representer for `Sentinel`: every sentinel is written as
      `null`; the tree's shape is otherwise untouched. */
  function RenderSentinels(v: Value): (r: Value)
    ensures NoSentinels(r)
    ensures v.Sentinel? ==> r.Null?
    ensures v.Dict? <==> r.Dict?
    ensures v.Dict? ==> r.entries.Keys == v.entries.Keys
    ensures v.List? <==> r.List?
    ensures v.List? ==> |r.items| == |v.items|
  {
    match v
    case Sentinel(_) => Null
    case Dict(m) => Dict(map k | k in m :: RenderSentinels(m[k]))
    case List(xs) => List(seq(|xs|, i requires 0 <= i < |xs| => RenderSentinels(xs[i])))
    case _ => v
  }

  /** Rendering changes nothing in a tree that holds no sentinel. */
  lemma {:induction false} RenderFixesSentinelFree(v: Value)
    requires NoSentinels(v)
    ensures RenderSentinels(v) == v
    decreases v
  {
    match v
    case List(xs) =>
      forall i | 0 <= i < |xs| ensures RenderSentinels(xs[i]) == xs[i] {
        RenderFixesSentinelFree(xs[i]);
      }
      assert RenderSentinels(v).items == xs;
    case Dict(m) =>
      forall k | k in m ensures RenderSentinels(m[k]) == m[k] {
        RenderFixesSentinelFree(m[k]);
      }
      assert RenderSentinels(v).entries == m;
    case _ =>
  }

  // ---------------------------------------------------------------------
  // First occurrences

  predicate Distinct(s: seq<string>)
  {
    forall i, j | 0 <= i < j < |s| :: s[i] != s[j]
  }

  /** The index of the first `x` in `s`. */
  function FirstPos(s: seq<string>, x: string): (k: nat)
    requires x in s
    ensures k < |s| && s[k] == x && x !in s[..k]
  {
    if s[0] == x then 0
    else
      var j := FirstPos(s[1..], x);
      assert s[..j + 1] == [s[0]] + s[1..][..j];
      1 + j
  }

  lemma FirstPosAppend(s: seq<string>, x: string, y: string)
    requires y in s
    ensures FirstPos(s + [x], y) == FirstPos(s, y)
  {
    var k := FirstPos(s, y);
    var t := s + [x];
    assert t[k] == y && t[..k] == s[..k];
  }

  /** The distinct elements of `s`, in order of first occurrence: what a
      Python dict's insertion order gives for its keys. */
  function Dedup(s: seq<string>): (r: seq<string>)
    ensures Distinct(r)
    ensures forall y :: y in r <==> y in s
  {
    if |s| == 0 then []
    else
      var d := Dedup(s[..|s| - 1]);
      if s[|s| - 1] in d then d else d + [s[|s| - 1]]
  }

  /** The elements of `r` appear in `s` in this order of first occurrence. */
  predicate Ordered(s: seq<string>, r: seq<string>)
  {
    forall i, j | 0 <= i < j < |r| && r[i] in s && r[j] in s :: FirstPos(s, r[i]) < FirstPos(s, r[j])
  }

  lemma OrderedAppend(s: seq<string>, x: string, r: seq<string>)
    requires forall y | y in r :: y in s
    requires Ordered(s, r)
    ensures Ordered(s + [x], r)
  {
    forall y | y in r ensures FirstPos(s + [x], y) == FirstPos(s, y) {
      FirstPosAppend(s, x, y);
    }
  }

  lemma OrderedExtend(s: seq<string>, x: string, r: seq<string>)
    requires x !in s && forall y | y in r :: y in s
    requires Ordered(s, r)
    ensures Ordered(s + [x], r + [x])
  {
    var t := s + [x];
    var r' := r + [x];
    OrderedAppend(s, x, r);
    assert FirstPos(t, x) == |s| by {
      assert t[|s|] == x;
    }
    forall i, j | 0 <= i < j < |r'| && r'[i] in t && r'[j] in t
      ensures FirstPos(t, r'[i]) < FirstPos(t, r'[j])
    {
      assert r'[i] == r[i] && r[i] in s;
      FirstPosAppend(s, x, r[i]);
      if j < |r| {
        assert r'[j] == r[j];
      }
    }
  }

  /** `Dedup` keeps the order of first occurrence. */
  lemma {:induction false} DedupOrder(s: seq<string>)
    ensures Ordered(s, Dedup(s))
  {
    if |s| > 0 {
      var init := s[..|s| - 1];
      var x := s[|s| - 1];
      assert s == init + [x];
      var d := Dedup(init);
      DedupOrder(init);
      if x in d {
        assert Dedup(s) == d;
        OrderedAppend(init, x, d);
      } else {
        assert Dedup(s) == d + [x];
        OrderedExtend(init, x, d);
      }
    }
  }

  /** Appending an element already seen leaves the first occurrences alone;
      a new one is added last. */
  lemma DedupAppend(s: seq<string>, x: string)
    ensures Dedup(s + [x]) == if x in s then Dedup(s) else Dedup(s) + [x]
  {
    assert (s + [x])[..|s + [x]| - 1] == s;
  }

  /** Without repetitions there is nothing to drop. */
  lemma {:induction false} DedupDistinct(s: seq<string>)
    requires Distinct(s)
    ensures Dedup(s) == s
  {
    if |s| > 0 {
      var init := s[..|s| - 1];
      assert s == init + [s[|s| - 1]];
      assert Distinct(init);
      DedupDistinct(init);
      assert s[|s| - 1] !in init;
      DedupAppend(init, s[|s| - 1]);
    }
  }

  // ---------------------------------------------------------------------
  // merge_required_apis

  type RequiredApi = Manifest.RequiredApi

  /** `api_to_reasons`: the dict's items in insertion order. */
  type Table = seq<(string, seq<string>)>

  function TableApis(t: Table): (r: seq<string>)
    ensures |r| == |t| && forall i | 0 <= i < |t| :: r[i] == t[i].0
  {
    seq(|t|, i requires 0 <= i < |t| => t[i].0)
  }

  function Apis(xs: seq<RequiredApi>): (r: seq<string>)
    ensures |r| == |xs| && forall i | 0 <= i < |xs| :: r[i] == xs[i].api
  {
    seq(|xs|, i requires 0 <= i < |xs| => xs[i].api)
  }

  /** The reasons given for `api`, in input order, repetitions included. */
  function ReasonsFor(xs: seq<RequiredApi>, api: string): seq<string>
  {
    if |xs| == 0 then []
    else ReasonsFor(xs[..|xs| - 1], api) + if xs[|xs| - 1].api == api then [xs[|xs| - 1].reason] else []
  }

  /** One iteration of the first loop of `merge_required_apis`: create the
      api's entry when missing, then append the reason unless already
      recorded for that api. */
  function AddReason(t: Table, x: RequiredApi): (r: Table)
  {
    if x.api in TableApis(t) then
      var i := FirstPos(TableApis(t), x.api);
      var reasons := t[i].1;
      t[i := (x.api, if x.reason in reasons then reasons else reasons + [x.reason])]
    else
      t + [(x.api, [x.reason])]
  }

  /** The first loop of `merge_required_apis`. */
  function Collect(xs: seq<RequiredApi>): Table
  {
    if |xs| == 0 then [] else AddReason(Collect(xs[..|xs| - 1]), xs[|xs| - 1])
  }

  /** The row the table is meant to hold for `api`: its distinct reasons
      in first-occurrence order. */
  function Row(xs: seq<RequiredApi>, api: string): (string, seq<string>)
  {
    (api, Dedup(ReasonsFor(xs, api)))
  }

  function Rows(xs: seq<RequiredApi>, apis: seq<string>): (t: Table)
    ensures |t| == |apis| && forall i | 0 <= i < |apis| :: t[i] == Row(xs, apis[i])
  {
    seq(|apis|, i requires 0 <= i < |apis| => Row(xs, apis[i]))
  }

  /** The table the first loop is meant to build, stated without the loop:
      one row per distinct api in first-occurrence order. */
  function Reference(xs: seq<RequiredApi>): (t: Table)
    ensures TableApis(t) == Dedup(Apis(xs))
  {
    Rows(xs, Dedup(Apis(xs)))
  }

  /** `merge_required_apis`. */
  function MergeRequiredApis(xs: seq<RequiredApi>): (r: seq<RequiredApi>)
  {
    var t := Collect(xs);
    seq(|t|, i requires 0 <= i < |t| => Manifest.RequiredApi(t[i].0, Join(t[i].1, " ")))
  }

  lemma ReasonsForAppend(xs: seq<RequiredApi>, x: RequiredApi, a: string)
    ensures ReasonsFor(xs + [x], a) == ReasonsFor(xs, a) + if x.api == a then [x.reason] else []
  {
    assert (xs + [x])[..|xs|] == xs;
  }

  lemma {:induction false} NoReasonsWithoutApi(xs: seq<RequiredApi>, a: string)
    requires a !in Apis(xs)
    ensures ReasonsFor(xs, a) == []
  {
    if |xs| > 0 {
      var init := xs[..|xs| - 1];
      assert Apis(init) == Apis(xs)[..|xs| - 1];
      NoReasonsWithoutApi(init, a);
      assert Apis(xs)[|xs| - 1] == xs[|xs| - 1].api;
    }
  }

  /** An entry for another api leaves a row alone. */
  lemma RowOther(xs: seq<RequiredApi>, x: RequiredApi, a: string)
    requires x.api != a
    ensures Row(xs + [x], a) == Row(xs, a)
  {
    ReasonsForAppend(xs, x, a);
    assert ReasonsFor(xs, a) + [] == ReasonsFor(xs, a);
  }

  lemma ApisAppend(xs: seq<RequiredApi>, x: RequiredApi)
    ensures Dedup(Apis(xs + [x])) == if x.api in Apis(xs) then Dedup(Apis(xs)) else Dedup(Apis(xs)) + [x.api]
  {
    assert Apis(xs + [x]) == Apis(xs) + [x.api];
    DedupAppend(Apis(xs), x.api);
  }

  /** The row of the api an entry names gains its reason unless already
      there. */
  lemma RowSame(xs: seq<RequiredApi>, x: RequiredApi)
    ensures var reasons := Row(xs, x.api).1;
      Row(xs + [x], x.api) == (x.api, if x.reason in reasons then reasons else reasons + [x.reason])
  {
    ReasonsForAppend(xs, x, x.api);
    DedupAppend(ReasonsFor(xs, x.api), x.reason);
  }

  /** A further reason for a known api updates that api's row only. */
  lemma AddKnownApi(xs: seq<RequiredApi>, x: RequiredApi)
    requires x.api in Apis(xs)
    ensures AddReason(Reference(xs), x) == Reference(xs + [x])
  {
    ApisAppend(xs, x);
    AddKnownRow(xs, x, Dedup(Apis(xs)));
  }

  lemma AddKnownRow(xs: seq<RequiredApi>, x: RequiredApi, d: seq<string>)
    requires Distinct(d) && x.api in d
    ensures AddReason(Rows(xs, d), x) == Rows(xs + [x], d)
  {
    var t := Rows(xs, d);
    var r := Rows(xs + [x], d);
    var i := FirstPos(d, x.api);
    RowSame(xs, x);
    var u := t[i := Row(xs + [x], x.api)];
    assert TableApis(t) == d;
    assert AddReason(t, x) == u;
    forall j | 0 <= j < |r| ensures u[j] == r[j] {
      if j != i {
        RowOther(xs, x, d[j]);
      }
    }
  }

  /** The first reason for a new api opens a row at the end. */
  lemma AddNewApi(xs: seq<RequiredApi>, x: RequiredApi)
    requires x.api !in Apis(xs)
    ensures AddReason(Reference(xs), x) == Reference(xs + [x])
  {
    ApisAppend(xs, x);
    AddNewRow(xs, x, Dedup(Apis(xs)));
  }

  lemma AddNewRow(xs: seq<RequiredApi>, x: RequiredApi, d: seq<string>)
    requires x.api !in d && x.api !in Apis(xs)
    ensures AddReason(Rows(xs, d), x) == Rows(xs + [x], d + [x.api])
  {
    var t := Rows(xs, d);
    assert TableApis(t) == d;
    assert AddReason(t, x) == t + [(x.api, [x.reason])];
    NewRow(xs, x);
    OtherRows(xs, x, d);
    RowsAppend(xs + [x], d, x.api);
  }

  /** A new api's row holds just the entry's reason. */
  lemma NewRow(xs: seq<RequiredApi>, x: RequiredApi)
    requires x.api !in Apis(xs)
    ensures Row(xs + [x], x.api) == (x.api, [x.reason])
  {
    NoReasonsWithoutApi(xs, x.api);
    ReasonsForAppend(xs, x, x.api);
    DedupDistinct([x.reason]);
  }

  /** An entry leaves the rows of the other apis alone. */
  lemma OtherRows(xs: seq<RequiredApi>, x: RequiredApi, d: seq<string>)
    requires x.api !in d
    ensures Rows(xs + [x], d) == Rows(xs, d)
  {
    forall j | 0 <= j < |d| ensures Rows(xs + [x], d)[j] == Rows(xs, d)[j] {
      RowOther(xs, x, d[j]);
    }
  }

  lemma RowsAppend(xs: seq<RequiredApi>, d: seq<string>, a: string)
    ensures Rows(xs, d + [a]) == Rows(xs, d) + [Row(xs, a)]
  {
  }

  /** The loop builds the reference table. */
  lemma {:induction false} CollectIsReference(xs: seq<RequiredApi>)
    ensures Collect(xs) == Reference(xs)
  {
    if |xs| > 0 {
      var init := xs[..|xs| - 1];
      var x := xs[|xs| - 1];
      assert xs == init + [x];
      CollectIsReference(init);
      if x.api in Apis(init) {
        AddKnownApi(init, x);
      } else {
        AddNewApi(init, x);
      }
    }
  }

  /** One entry per distinct api, in order of first occurrence, each api's
      distinct reasons joined by single spaces in first-seen order (so a
      reason already recorded is not repeated). */
  lemma MergeRequiredApisSpec(xs: seq<RequiredApi>)
    ensures var r := MergeRequiredApis(xs);
      && Apis(r) == Dedup(Apis(xs))
      && forall i | 0 <= i < |r| :: r[i].reason == Join(Dedup(ReasonsFor(xs, r[i].api)), " ")
  {
    CollectIsReference(xs);
  }

  /** A list with no repeated api comes back unchanged; this covers the
      empty list. */
  lemma MergeDistinctUnchanged(xs: seq<RequiredApi>)
    requires Distinct(Apis(xs))
    ensures MergeRequiredApis(xs) == xs
  {
    CollectIsReference(xs);
    DedupDistinct(Apis(xs));
    var r := MergeRequiredApis(xs);
    forall i | 0 <= i < |xs| ensures r[i] == xs[i] {
      var a := xs[i].api;
      assert ReasonsFor(xs, a) == [xs[i].reason] by {
        SingleReason(xs, i);
      }
      DedupDistinct([xs[i].reason]);
    }
  }

  /** With distinct apis, the only reason for `xs[i].api` is `xs[i]`'s. */
  lemma {:induction false} SingleReason(xs: seq<RequiredApi>, i: nat)
    requires Distinct(Apis(xs)) && i < |xs|
    ensures ReasonsFor(xs, xs[i].api) == [xs[i].reason]
  {
    var init := xs[..|xs| - 1];
    var last := xs[|xs| - 1];
    assert Distinct(Apis(init)) by {
      assert forall j | 0 <= j < |init| :: Apis(init)[j] == Apis(xs)[j];
    }
    if i == |xs| - 1 {
      assert forall k | 0 <= k < |init| :: Apis(init)[k] == Apis(xs)[k];
      assert last.api !in Apis(init);
      NoReasonsWithoutApi(init, last.api);
    } else {
      SingleReason(init, i);
      assert init[i] == xs[i];
      assert Apis(xs)[i] != Apis(xs)[|xs| - 1];
    }
  }

  /** Merging an already merged list changes nothing. */
  lemma MergeIdempotent(xs: seq<RequiredApi>)
    ensures MergeRequiredApis(MergeRequiredApis(xs)) == MergeRequiredApis(xs)
  {
    MergeRequiredApisSpec(xs);
    MergeDistinctUnchanged(MergeRequiredApis(xs));
  }

  // ---------------------------------------------------------------------
  // functions_as_yaml, up to the dumped tree

  /** A decorated function: its `__firebase_endpoint__` and, when it has
      one, its `__required_apis` list. */
  datatype Function = Function(endpoint: Manifest.ManifestEndpoint, requiredApis: Option<seq<RequiredApi>>)

  /** `endpoints[name] = endpoint` over the functions dict in order. */
  function Endpoints(fns: seq<(string, Function)>): (r: map<string, Manifest.ManifestEndpoint>)
    ensures r.Keys == set i | 0 <= i < |fns| :: fns[i].0
    ensures forall i | 0 <= i < |fns| && (forall j | i < j < |fns| :: fns[j].0 != fns[i].0) ::
              r[fns[i].0] == fns[i].1.endpoint
  {
    if |fns| == 0 then map[]
    else
      var init := fns[..|fns| - 1];
      var (name, f) := fns[|fns| - 1];
      var rest := Endpoints(init);
      assert fns == init + [(name, f)];
      EndpointsLast(init, name, f, rest);
      rest[name := f.endpoint]
  }

  /** Writing one more function into the endpoints dict adds its name and
      makes it the last one with that name. */
  lemma EndpointsLast(init: seq<(string, Function)>, name: string, f: Function,
                      rest: map<string, Manifest.ManifestEndpoint>)
    requires rest.Keys == set i | 0 <= i < |init| :: init[i].0
    requires forall i | 0 <= i < |init| && (forall j | i < j < |init| :: init[j].0 != init[i].0) ::
               rest[init[i].0] == init[i].1.endpoint
    ensures var fns, r := init + [(name, f)], rest[name := f.endpoint];
            && r.Keys == (set i | 0 <= i < |fns| :: fns[i].0)
            && forall i | 0 <= i < |fns| && (forall j | i < j < |fns| :: fns[j].0 != fns[i].0) ::
                 r[fns[i].0] == fns[i].1.endpoint
  {
    var fns, r := init + [(name, f)], rest[name := f.endpoint];
    assert forall i | 0 <= i < |init| :: fns[i] == init[i];
    assert fns[|init|] == (name, f);
  }

  /** The required-API entries of every function that has some, in order. */
  function CollectApis(fns: seq<(string, Function)>): (r: seq<RequiredApi>)
    ensures forall i, a | 0 <= i < |fns| && fns[i].1.requiredApis.Some? && a in fns[i].1.requiredApis.value ::
              a in r
    ensures forall a | a in r :: exists i | 0 <= i < |fns| ::
              fns[i].1.requiredApis.Some? && a in fns[i].1.requiredApis.value
  {
    if |fns| == 0 then []
    else
      var init := fns[..|fns| - 1];
      var f := fns[|fns| - 1].1;
      var rest := CollectApis(init);
      assert forall i | 0 <= i < |fns| - 1 :: init[i] == fns[i];
      rest + if f.requiredApis.Some? then f.requiredApis.value else []
  }

  /** The manifest stack `functions_as_yaml` builds. */
  function Stack(fns: seq<(string, Function)>, registry: Params.Registry): Manifest.ManifestStack
  {
    Manifest.ManifestStack(Endpoints(fns), params := Some(registry),
                           requiredApis := MergeRequiredApis(CollectApis(fns)))
  }

  /** `to_spec` keeps every top-level entry of a lowered manifest and
      leaves the version, the endpoint names and the required-API list as
      they are. */
  lemma ToSpecOfManifest(stack: Manifest.ManifestStack, ps: seq<Value>)
    ensures var spec := Manifest.StackToSpec(stack)["params" := List(ps)];
      && ToSpec(spec).Keys == spec.Keys
      && ToSpec(spec)["specVersion"] == Str(stack.specVersion)
      && ToSpec(spec)["endpoints"].Dict? && ToSpec(spec)["endpoints"].entries.Keys == stack.endpoints.Keys
      && ToSpec(spec)["requiredAPIs"] == Manifest.ApisToSpec(stack.requiredApis)
  {
    var base := Manifest.StackToSpec(stack);
    var spec := base["params" := List(ps)];
    assert spec.Keys == {"endpoints", "specVersion", "requiredAPIs", "params"};
    assert forall k | k in spec :: !spec[k].Null?;
    EndpointNames(base["endpoints"].entries);
    ApisUnchanged(stack.requiredApis);
  }

  lemma EndpointNames(eps: map<string, Value>)
    requires forall k | k in eps :: eps[k].Dict?
    ensures Convert(Dict(eps)).entries.Keys == eps.Keys
  {
  }

  lemma ApisUnchanged(apis: seq<RequiredApi>)
    ensures Convert(Manifest.ApisToSpec(apis)) == Manifest.ApisToSpec(apis)
  {
    var items := Manifest.ApisToSpec(apis).items;
    forall i | 0 <= i < |items| ensures Convert(items[i]) == items[i] {
      assert items[i] == apis[i].AsValue();
      assert Convert(items[i]).entries.Keys == items[i].entries.Keys;
    }
    assert Convert(List(items)).items == items;
  }

  /** `to_spec(manifest_to_spec_dict(stack))`: the endpoints under their
      names, the merged required APIs, the spec version and the param
      list; it fails exactly when a registered param cannot be lowered. */
  function FunctionsAsSpec(fns: seq<(string, Function)>, registry: Params.Registry)
    : (r: Result<map<string, Value>, PyError>)
    ensures r.Ok? <==> Manifest.ParamsToSpec(registry).Ok?
    ensures r.Ok? ==> r.value.Keys == {"endpoints", "specVersion", "requiredAPIs", "params"}
    ensures r.Ok? ==> r.value["specVersion"] == Str("v1alpha1")
    ensures r.Ok? ==> r.value["endpoints"].Dict?
                      && r.value["endpoints"].entries.Keys == set i | 0 <= i < |fns| :: fns[i].0
    ensures r.Ok? ==> r.value["requiredAPIs"] == Manifest.ApisToSpec(MergeRequiredApis(CollectApis(fns)))
    ensures r.Ok? ==> r.value["params"] == Convert(List(Manifest.ParamsToSpec(registry).value))
    ensures r.Ok? ==> forall i | 0 <= i < |fns| && (forall j | i < j < |fns| :: fns[j].0 != fns[i].0) ::
              r.value["endpoints"].entries[fns[i].0] == Convert(Dict(Manifest.EndpointToSpec(fns[i].1.endpoint)))
  {
    var spec :- Manifest.ManifestToSpecDict(Stack(fns, registry));
    SpecOfStack(fns, registry, spec);
    Ok(ToSpec(spec))
  }

  /** What `to_spec` makes of the lowered manifest of `fns`. */
  lemma SpecOfStack(fns: seq<(string, Function)>, registry: Params.Registry, spec: map<string, Value>)
    requires Manifest.ManifestToSpecDict(Stack(fns, registry)) == Ok(spec)
    ensures Manifest.ParamsToSpec(registry).Ok?
    ensures var t := ToSpec(spec);
      && t.Keys == {"endpoints", "specVersion", "requiredAPIs", "params"}
      && t["specVersion"] == Str("v1alpha1")
      && t["endpoints"].Dict? && t["endpoints"].entries.Keys == (set i | 0 <= i < |fns| :: fns[i].0)
      && t["requiredAPIs"] == Manifest.ApisToSpec(MergeRequiredApis(CollectApis(fns)))
      && t["params"] == Convert(List(Manifest.ParamsToSpec(registry).value))
      && forall i | 0 <= i < |fns| && (forall j | i < j < |fns| :: fns[j].0 != fns[i].0) ::
           t["endpoints"].entries[fns[i].0] == Convert(Dict(Manifest.EndpointToSpec(fns[i].1.endpoint)))
  {
    var stack := Stack(fns, registry);
    assert spec == Manifest.StackToSpec(stack)["params" := List(Manifest.ParamsToSpec(registry).value)];
    ToSpecOfManifest(stack, Manifest.ParamsToSpec(registry).value);
    EndpointValues(fns, spec["endpoints"]);
  }

  /** Each endpoint is converted in place under its name; a repeated name
      keeps its last function's endpoint. */
  lemma EndpointValues(fns: seq<(string, Function)>, eps: Value)
    requires eps == Dict(map name | name in Endpoints(fns) :: Dict(Manifest.EndpointToSpec(Endpoints(fns)[name])))
    ensures forall i | 0 <= i < |fns| && (forall j | i < j < |fns| :: fns[j].0 != fns[i].0) ::
              Convert(eps).entries[fns[i].0] == Convert(Dict(Manifest.EndpointToSpec(fns[i].1.endpoint)))
  {
    forall i | 0 <= i < |fns| && (forall j | i < j < |fns| :: fns[j].0 != fns[i].0) {
      EndpointValue(fns, eps, i);
    }
  }

  lemma EndpointValue(fns: seq<(string, Function)>, eps: Value, i: int)
    requires eps == Dict(map name | name in Endpoints(fns) :: Dict(Manifest.EndpointToSpec(Endpoints(fns)[name])))
    requires 0 <= i < |fns| && forall j | i < j < |fns| :: fns[j].0 != fns[i].0
    ensures fns[i].0 in Convert(eps).entries
    ensures Convert(eps).entries[fns[i].0] == Convert(Dict(Manifest.EndpointToSpec(fns[i].1.endpoint)))
  {
    var k := fns[i].0;
    var m := Endpoints(fns);
    assert k in m && m[k] == fns[i].1.endpoint;
    var v := Dict(Manifest.EndpointToSpec(m[k]));
    assert eps.entries[k] == v;
    ConvertEntry(eps.entries, k);
  }

  lemma ConvertEntry(m: map<string, Value>, k: string)
    requires k in m && !m[k].Null?
    ensures k in Convert(Dict(m)).entries && Convert(Dict(m)).entries[k] == Convert(m[k])
  {
  }

  /** The tree handed to `yaml.dump`: sentinels are written as nulls, so
      nothing of the reset marker reaches the output but its place. */
  function ManifestTree(fns: seq<(string, Function)>, registry: Params.Registry): (r: Result<Value, PyError>)
    ensures r.Ok? <==> FunctionsAsSpec(fns, registry).Ok?
    ensures r.Ok? ==> NoSentinels(r.value) && r.value.Dict?
                      && r.value.entries.Keys == FunctionsAsSpec(fns, registry).value.Keys
  {
    var spec :- FunctionsAsSpec(fns, registry);
    Ok(RenderSentinels(Dict(spec)))
  }
}
