/** Function options (`options.py`): the merge of a function's own runtime
    options with the process-wide global ones, and the manifest endpoint
    each trigger kind builds from the merged record. The global record is
    passed in explicitly. */
module Options {
  import opened Wrappers
  import opened Values
  import Manifest
  import Params
  import PathPattern
  import Strings

  // ---------------------------------------------------------------------
  // Runtime options

  /** The scalar runtime options, which merge field by field. */
  datatype Field =
    | Region | Memory | TimeoutSec | MinInstances | MaxInstances | Concurrency
    | Cpu | VpcConnector | VpcConnectorEgressSettings | ServiceAccount | Ingress

  const AllFields: set<Field> :=
    {Region, Memory, TimeoutSec, MinInstances, MaxInstances, Concurrency,
     Cpu, VpcConnector, VpcConnectorEgressSettings, ServiceAccount, Ingress}

  /** The nine options that fall back to `RESET_VALUE` when unset. */
  predicate Resettable(f: Field)
  {
    !f.Region? && !f.Cpu?
  }

  /** One entry of a `secrets` list: a secret name or a `SecretParam`. */
  datatype SecretItem = Named(name: string) | Declared(param: Params.SecretParam)

  /** A `secrets` option: a list, or `RESET_VALUE`. */
  datatype Secrets = SecretList(items: seq<SecretItem>) | ResetSecrets

  /** `RuntimeOptions`; `Null` (or `None`) is an unset option. */
  datatype RuntimeOptions = RuntimeOptions(
    region: Value := Null,
    memory: Value := Null,
    timeoutSec: Value := Null,
    minInstances: Value := Null,
    maxInstances: Value := Null,
    concurrency: Value := Null,
    cpu: Value := Null,
    vpcConnector: Value := Null,
    vpcConnectorEgressSettings: Value := Null,
    serviceAccount: Value := Null,
    ingress: Value := Null,
    labels: Option<map<string, string>> := None,
    secrets: Option<Secrets> := None,
    enforceAppCheck: Option<bool> := None,
    preserveExternalChanges: Option<bool> := None)
  {
    function Get(f: Field): Value
    {
      match f
      case Region => region
      case Memory => memory
      case TimeoutSec => timeoutSec
      case MinInstances => minInstances
      case MaxInstances => maxInstances
      case Concurrency => concurrency
      case Cpu => cpu
      case VpcConnector => vpcConnector
      case VpcConnectorEgressSettings => vpcConnectorEgressSettings
      case ServiceAccount => serviceAccount
      case Ingress => ingress
    }
  }

  /** `set_global_options`: the keyword defaults, notably `cpu="gcf_gen1"`
      where a bare `RuntimeOptions()` leaves `cpu` unset. */
  function SetGlobalOptions(
    region: Value := Null, memory: Value := Null, timeoutSec: Value := Null,
    minInstances: Value := Null, maxInstances: Value := Null, concurrency: Value := Null,
    cpu: Value := Str("gcf_gen1"), vpcConnector: Value := Null,
    vpcConnectorEgressSettings: Value := Null, serviceAccount: Value := Null,
    ingress: Value := Null, labels: Option<map<string, string>> := None,
    secrets: Option<Secrets> := None, enforceAppCheck: Option<bool> := None,
    preserveExternalChanges: Option<bool> := None): RuntimeOptions
  {
    RuntimeOptions(region, memory, timeoutSec, minInstances, maxInstances, concurrency, cpu,
                   vpcConnector, vpcConnectorEgressSettings, serviceAccount, ingress,
                   labels, secrets, enforceAppCheck, preserveExternalChanges)
  }

  /** The lowered `secrets` value as it sits in an options `__dict__`: names
      stay strings, a `SecretParam` is an expression and lowers to its
      `{{ params.NAME }}` text. */
  function SecretsValue(s: Secrets): Value
  {
    match s
    case ResetSecrets => ResetValue
    case SecretList(items) =>
      List(seq(|items|, i requires 0 <= i < |items| =>
        match items[i]
        case Named(n) => Str(n)
        case Declared(p) => Expr(Params.SecretRef(p))))
  }

  /** `convert_secret` over a local list: a `SecretParam` by its name. */
  function SecretNames(items: seq<SecretItem>): (r: seq<Value>)
    ensures |r| == |items|
    ensures forall i | 0 <= i < |items| ::
      r[i] == Str(if items[i].Named? then items[i].name else items[i].param.name)
  {
    seq(|items|, i requires 0 <= i < |items| =>
      match items[i]
      case Named(n) => Str(n)
      case Declared(p) => Str(p.name))
  }

  /** The options dict `_asdict_with_global_options` returns, restricted to
      the runtime options. An absent scalar is a missing key. */
  datatype Merged = Merged(
    scalars: map<Field, Value>,
    labels: map<string, string>,
    secrets: Value,
    enforceAppCheck: Option<bool>,
    preserveExternalChanges: Option<bool>)

  /** `{**global_options, **provider_options}` for the scalars: both sides
      lose their `None` entries and are lowered, and the local side wins. */
  function MergeScalars(local: RuntimeOptions, global: RuntimeOptions): (m: map<Field, Value>)
    ensures forall f :: f in m <==> !local.Get(f).Null? || !global.Get(f).Null?
    ensures forall f | f in m && !local.Get(f).Null? :: m[f] == Manifest.ObjectToSpec(local.Get(f))
    ensures forall f | f in m && local.Get(f).Null? :: m[f] == Manifest.ObjectToSpec(global.Get(f))
  {
    map f | f in AllFields && (!local.Get(f).Null? || !global.Get(f).Null?) ::
      if !local.Get(f).Null? then Manifest.ObjectToSpec(local.Get(f))
      else Manifest.ObjectToSpec(global.Get(f))
  }

  /** Every resettable option missing from `m` becomes `RESET_VALUE`. */
  function ApplyResets(m: map<Field, Value>): (r: map<Field, Value>)
  {
    m + map f | f in AllFields && Resettable(f) && f !in m :: ResetValue
  }

  /** `_asdict_with_global_options`. It fails when the local `secrets` is
      `RESET_VALUE`: the guard compares against the `Sentinel` class, not
      an instance, so the sentinel reaches `map` and is not iterable. */
  function MergeOptions(local: RuntimeOptions, global: RuntimeOptions): (r: Result<Merged, PyError>)
    ensures r.Err? <==> local.secrets == Some(ResetSecrets)
    ensures r.Err? ==> r.error == TypeError
  {
    var scalars := MergeScalars(local, global);
    var labels := global.labels.GetOr(map[]) + local.labels.GetOr(map[]);
    var preserve := if local.preserveExternalChanges.Some? then local.preserveExternalChanges
                    else global.preserveExternalChanges;
    var scalars' := if preserve == Some(true) then scalars else ApplyResets(scalars);
    var lowered :=
      if local.secrets.Some? then Manifest.ObjectToSpec(SecretsValue(local.secrets.value))
      else if global.secrets.Some? then Manifest.ObjectToSpec(SecretsValue(global.secrets.value))
      else Null;
    var secrets :- match local.secrets
      case Some(SecretList(items)) =>
        if |items| > 0 then Ok(List(SecretNames(items))) else Ok(lowered)
      case Some(ResetSecrets) => Err(TypeError)
      case None => Ok(lowered);
    var enforce := if local.enforceAppCheck.Some? then local.enforceAppCheck else global.enforceAppCheck;
    Ok(Merged(scalars', labels, secrets, enforce, preserve))
  }

  /** A scalar option takes the local value if set, else the global one;
      unset on both sides it is missing, or `RESET_VALUE` when resettable
      and external changes are not preserved. */
  lemma MergeScalarRule(local: RuntimeOptions, global: RuntimeOptions, f: Field)
    requires MergeOptions(local, global).Ok?
    ensures var m := MergeOptions(local, global).value;
      var preserve := m.preserveExternalChanges == Some(true);
      && (f in m.scalars <==> !local.Get(f).Null? || !global.Get(f).Null? || (Resettable(f) && !preserve))
      && (!local.Get(f).Null? ==> m.scalars[f] == Manifest.ObjectToSpec(local.Get(f)))
      && (local.Get(f).Null? && !global.Get(f).Null? ==> m.scalars[f] == Manifest.ObjectToSpec(global.Get(f)))
      && (local.Get(f).Null? && global.Get(f).Null? && Resettable(f) && !preserve ==> m.scalars[f] == ResetValue)
  {
    assert f in AllFields;
  }

  /** Labels merge key by key with the local ones winning, and are `{}`
      when neither side has any. */
  lemma MergeLabelsRule(local: RuntimeOptions, global: RuntimeOptions, k: string)
    requires MergeOptions(local, global).Ok?
    ensures var labels := MergeOptions(local, global).value.labels;
      && (k in labels <==> (local.labels.Some? && k in local.labels.value)
                           || (global.labels.Some? && k in global.labels.value))
      && (local.labels.Some? && k in local.labels.value ==> labels[k] == local.labels.value[k])
      && (global.labels.Some? && k in global.labels.value && (local.labels.None? || k !in local.labels.value)
          ==> labels[k] == global.labels.value[k])
  {
  }

  /** With external changes preserved nothing is reset: every option
      present in the merge was set on one side. */
  lemma PreserveKeepsUnset(local: RuntimeOptions, global: RuntimeOptions)
    requires MergeOptions(local, global).Ok?
    requires local.preserveExternalChanges == Some(true)
             || (local.preserveExternalChanges.None? && global.preserveExternalChanges == Some(true))
    ensures forall f | f in MergeOptions(local, global).value.scalars ::
              !local.Get(f).Null? || !global.Get(f).Null?
  {
  }

  /** A non-empty local secrets list is bound by name, whatever the global
      list holds. */
  lemma LocalSecretsByName(local: RuntimeOptions, global: RuntimeOptions)
    requires local.secrets.Some? && local.secrets.value.SecretList? && |local.secrets.value.items| > 0
    ensures MergeOptions(local, global).Ok?
    ensures MergeOptions(local, global).value.secrets == List(SecretNames(local.secrets.value.items))
  {
  }

  // ---------------------------------------------------------------------
  // The base endpoint

  /** `region`: a list is kept, a single region becomes a one-element list,
      an unset region stays unset. */
  function RegionList(v: Value): (r: Value)
    ensures v.Null? <==> r.Null?
    ensures v.List? ==> r == v
    ensures !v.Null? && !v.List? ==> r == List([v])
  {
    if v.List? then v else if v.Null? then Null else List([v])
  }

  /** `vpc`: present only for a string connector, with `egressSettings`
      only when the egress option is not `None`. */
  function VpcSettings(connector: Value, egress: Value): (r: Value)
    ensures r.Null? <==> !connector.Str?
    ensures connector.Str? ==> r.Dict? && "connector" in r.entries && r.entries["connector"] == connector
    ensures connector.Str? ==> ("egressSettings" in r.entries <==> !egress.Null?)
  {
    if !connector.Str? then Null
    else if egress.Null? then Dict(map["connector" := connector])
    else Dict(map["connector" := connector,
                  "egressSettings" := if egress.Member? then egress.raw else egress])
  }

  /** `secretEnvironmentVariables`: one `{"key": secret}` per listed
      secret; anything but a list (unset, or the reset sentinel) gives `[]`. */
  function SecretEnvs(secrets: Value): (r: Value)
    ensures r.List?
    ensures secrets.List? ==> |r.items| == |secrets.items|
    ensures secrets.List? ==> forall i | 0 <= i < |secrets.items| ::
              r.items[i] == Dict(map["key" := secrets.items[i]])
    ensures !secrets.List? ==> r == List([])
  {
    if secrets.List? then
      List(seq(|secrets.items|, i requires 0 <= i < |secrets.items| => Dict(map["key" := secrets.items[i]])))
    else List([])
  }

  function LabelsValue(labels: map<string, string>): (r: Value)
    ensures r.Dict? && r.entries.Keys == labels.Keys
    ensures forall k | k in labels :: r.entries[k] == Str(labels[k])
  {
    Dict(map k | k in labels :: Str(labels[k]))
  }

  /** `options.<field>` of the class rebuilt from the merged dict. */
  function Option(m: Merged, f: Field): (v: Value)
    ensures f in m.scalars ==> v == m.scalars[f]
    ensures f !in m.scalars ==> v.Null?
  {
    if f in m.scalars then m.scalars[f] else Null
  }

  /** `RuntimeOptions._endpoint`: the endpoint every trigger starts from. */
  function BaseEndpoint(funcName: string, local: RuntimeOptions, global: RuntimeOptions)
    : (r: Result<Manifest.ManifestEndpoint, PyError>)
    ensures r.Ok? <==> MergeOptions(local, global).Ok?
    ensures r.Ok? ==> var m := MergeOptions(local, global).value;
      && r.value.entryPoint == Str(funcName)
      && r.value.region == RegionList(Option(m, Region))
      && r.value.availableMemoryMb == Option(m, Memory)
      && r.value.timeoutSeconds == Option(m, TimeoutSec)
      && r.value.serviceAccountEmail == Option(m, ServiceAccount)
      && r.value.maxInstances == Option(m, MaxInstances)
      && r.value.minInstances == Option(m, MinInstances)
      && r.value.concurrency == Option(m, Concurrency)
      && r.value.cpu == Option(m, Cpu)
      && r.value.ingressSettings == Option(m, Ingress)
      && r.value.labels == LabelsValue(m.labels)
      && r.value.vpc == VpcSettings(Option(m, VpcConnector), Option(m, VpcConnectorEgressSettings))
      && r.value.secretEnvironmentVariables == SecretEnvs(m.secrets)
      && r.value.platform == Str("gcfv2")
    ensures r.Ok? ==> TriggerFree(r.value)
  {
    var m :- MergeOptions(local, global);
    Ok(Manifest.ManifestEndpoint(
      entryPoint := Str(funcName),
      region := RegionList(Option(m, Region)),
      availableMemoryMb := Option(m, Memory),
      labels := LabelsValue(m.labels),
      maxInstances := Option(m, MaxInstances),
      minInstances := Option(m, MinInstances),
      concurrency := Option(m, Concurrency),
      serviceAccountEmail := Option(m, ServiceAccount),
      timeoutSeconds := Option(m, TimeoutSec),
      cpu := Option(m, Cpu),
      ingressSettings := Option(m, Ingress),
      secretEnvironmentVariables := SecretEnvs(m.secrets),
      vpc := VpcSettings(Option(m, VpcConnector), Option(m, VpcConnectorEgressSettings))))
  }

  /** No trigger is set yet. */
  predicate TriggerFree(ep: Manifest.ManifestEndpoint)
  {
    ep.httpsTrigger.Null? && ep.callableTrigger.Null? && ep.eventTrigger.Null?
    && ep.scheduleTrigger.Null? && ep.blockingTrigger.Null? && ep.taskQueueTrigger.Null?
  }

  /** After `set_global_options()` with no `cpu` argument, a function that
      sets no cpu of its own runs on `"gcf_gen1"`; under the initial bare
      globals its cpu is left out. */
  lemma GlobalCpuDefault(funcName: string, local: RuntimeOptions)
    requires local.cpu.Null? && local.secrets != Some(ResetSecrets)
    ensures BaseEndpoint(funcName, local, SetGlobalOptions()).Ok?
    ensures BaseEndpoint(funcName, local, SetGlobalOptions()).value.cpu == Str("gcf_gen1")
    ensures BaseEndpoint(funcName, local, RuntimeOptions()).value.cpu == Null
  {
    MergeScalarRule(local, SetGlobalOptions(), Cpu);
    MergeScalarRule(local, RuntimeOptions(), Cpu);
  }

  /** In the merge of two bare option sets, a resettable option is reset
      and any other is missing. */
  lemma BareOption(m: Merged, f: Field)
    requires MergeOptions(RuntimeOptions(), RuntimeOptions()) == Ok(m)
    ensures Option(m, f) == if Resettable(f) then ResetValue else Null
  {
    MergeScalarRule(RuntimeOptions(), RuntimeOptions(), f);
  }

  /** The merge of two bare option sets: region and cpu missing, memory
      and the VPC connector reset, no labels and no secrets. */
  lemma DefaultMerge(m: Merged)
    requires MergeOptions(RuntimeOptions(), RuntimeOptions()) == Ok(m)
    ensures Option(m, Region) == Null && Option(m, Cpu) == Null
    ensures Option(m, Memory) == ResetValue && Option(m, VpcConnector) == ResetValue
    ensures m.labels == map[] && m.secrets == Null
  {
    BareOption(m, Region);
    BareOption(m, Cpu);
    BareOption(m, Memory);
    BareOption(m, VpcConnector);
  }

  /** A bare function under the initial globals: nothing set, so every
      resettable option is reset, the region is left out and the labels are
      empty. */
  lemma DefaultBaseEndpoint(funcName: string)
    ensures var r := BaseEndpoint(funcName, RuntimeOptions(), RuntimeOptions());
      && r.Ok?
      && r.value.region == Null
      && r.value.availableMemoryMb == ResetValue
      && r.value.cpu == Null
      && r.value.vpc == Null
      && r.value.labels == Dict(map[])
      && r.value.secretEnvironmentVariables == List([])
  {
    var merged := MergeOptions(RuntimeOptions(), RuntimeOptions());
    assert merged.Ok?;
    DefaultMerge(merged.value);
  }

  // ---------------------------------------------------------------------
  // Trigger endpoints. Each starts from the base endpoint and sets one
  // trigger; the result of the merge is the only error source besides
  // the ones named.

  /** `rate_limits` of a task queue function. */
  datatype RateLimits = RateLimits(maxConcurrentDispatches: Value := Null, maxDispatchesPerSecond: Value := Null)

  /** `retry_config` of a task queue function. */
  datatype TaskRetry = TaskRetry(
    maxAttempts: Value := Null, maxRetrySeconds: Value := Null, maxBackoffSeconds: Value := Null,
    maxDoublings: Value := Null, minBackoffSeconds: Value := Null)

  function RateLimitsValue(l: RateLimits): (v: Value)
    ensures v.Dict? && v.entries.Keys == {"maxConcurrentDispatches", "maxDispatchesPerSecond"}
    ensures v.entries["maxConcurrentDispatches"] == l.maxConcurrentDispatches
    ensures v.entries["maxDispatchesPerSecond"] == l.maxDispatchesPerSecond
  {
    Dict(map["maxConcurrentDispatches" := l.maxConcurrentDispatches,
             "maxDispatchesPerSecond" := l.maxDispatchesPerSecond])
  }

  function TaskRetryValue(c: TaskRetry): (v: Value)
    ensures v.Dict? && v.entries.Keys
      == {"maxAttempts", "maxRetrySeconds", "maxBackoffSeconds", "maxDoublings", "minBackoffSeconds"}
    ensures v.entries["maxAttempts"] == c.maxAttempts && v.entries["maxRetrySeconds"] == c.maxRetrySeconds
    ensures v.entries["maxBackoffSeconds"] == c.maxBackoffSeconds && v.entries["maxDoublings"] == c.maxDoublings
    ensures v.entries["minBackoffSeconds"] == c.minBackoffSeconds
  {
    Dict(map["maxAttempts" := c.maxAttempts, "maxRetrySeconds" := c.maxRetrySeconds,
             "maxBackoffSeconds" := c.maxBackoffSeconds, "maxDoublings" := c.maxDoublings,
             "minBackoffSeconds" := c.minBackoffSeconds])
  }

  /** `TaskQueueOptions._endpoint`: `taskQueueTrigger` holds the function's
      own rate limits and retry policy (never merged with globals), each
      `None` when not given. */
  function TaskQueueEndpoint(funcName: string, local: RuntimeOptions, global: RuntimeOptions,
                             rateLimits: Option<RateLimits>, retry: Option<TaskRetry>)
    : (r: Result<Manifest.ManifestEndpoint, PyError>)
    ensures r.Ok? <==> BaseEndpoint(funcName, local, global).Ok?
    ensures r.Ok? ==> r.value.(taskQueueTrigger := Null) == BaseEndpoint(funcName, local, global).value
    ensures r.Ok? ==> var t := r.value.taskQueueTrigger;
      && t.Dict? && t.entries.Keys == {"rateLimits", "retryConfig"}
      && t.entries["rateLimits"] == (if rateLimits.None? then Null else RateLimitsValue(rateLimits.value))
      && t.entries["retryConfig"] == (if retry.None? then Null else TaskRetryValue(retry.value))
  {
    var ep :- BaseEndpoint(funcName, local, global);
    var limits := if rateLimits.None? then Null else RateLimitsValue(rateLimits.value);
    var config := if retry.None? then Null else TaskRetryValue(retry.value);
    Ok(ep.(taskQueueTrigger := Dict(map["rateLimits" := limits, "retryConfig" := config])))
  }

  /** The event trigger record `{eventType, retry, eventFilters}`. */
  function EventTrigger(eventType: string, retry: Value, filters: map<string, Value>): (t: Value)
    ensures t.Dict? && t.entries.Keys == {"eventType", "retry", "eventFilters"}
    ensures t.entries["eventType"] == Str(eventType) && t.entries["eventFilters"] == Dict(filters)
    ensures retry.Null? ==> t.entries["retry"] == Bool(false)
    ensures !retry.Null? ==> t.entries["retry"] == retry
  {
    Dict(map["eventType" := Str(eventType),
             "retry" := if retry.Null? then Bool(false) else retry,
             "eventFilters" := Dict(filters)])
  }

  /** `EventHandlerOptions._endpoint`: an event trigger whose `retry`
      defaults to `False`. */
  function EventEndpoint(funcName: string, local: RuntimeOptions, global: RuntimeOptions,
                         retry: Value, eventType: string, filters: map<string, Value>)
    : (r: Result<Manifest.ManifestEndpoint, PyError>)
    ensures r.Ok? <==> BaseEndpoint(funcName, local, global).Ok?
    ensures r.Ok? ==> r.value.(eventTrigger := Null) == BaseEndpoint(funcName, local, global).value
    ensures r.Ok? ==> r.value.eventTrigger == EventTrigger(eventType, retry, filters)
  {
    var ep :- BaseEndpoint(funcName, local, global);
    Ok(ep.(eventTrigger := EventTrigger(eventType, retry, filters)))
  }

  const PubSubEventType := "google.cloud.pubsub.topic.v1.messagePublished"
  const AlertEventType := "google.firebase.firebasealerts.alerts.v1.published"

  /** `PubSubOptions._endpoint`: the topic is the only filter. */
  function PubSubEndpoint(funcName: string, local: RuntimeOptions, global: RuntimeOptions,
                          retry: Value, topic: string)
    : (r: Result<Manifest.ManifestEndpoint, PyError>)
    ensures r.Ok? <==> BaseEndpoint(funcName, local, global).Ok?
    ensures r.Ok? ==> r.value.(eventTrigger := Null) == BaseEndpoint(funcName, local, global).value
    ensures r.Ok? ==> r.value.eventTrigger == EventTrigger(PubSubEventType, retry, map["topic" := Str(topic)])
  {
    EventEndpoint(funcName, local, global, retry, PubSubEventType, map["topic" := Str(topic)])
  }

  /** The filters of a Firebase alert: the alert type, and the app id only
      when one is given. */
  function AlertFilters(alertType: Value, appId: Option<string>): (f: map<string, Value>)
    ensures "alerttype" in f && f["alerttype"] == alertType
    ensures "appid" in f <==> appId.Some?
    ensures appId.Some? ==> f["appid"] == Str(appId.value)
    ensures f.Keys <= {"alerttype", "appid"}
  {
    if appId.Some? then map["alerttype" := alertType, "appid" := Str(appId.value)]
    else map["alerttype" := alertType]
  }

  /** `FirebaseAlertOptions._endpoint`. */
  function AlertEndpoint(funcName: string, local: RuntimeOptions, global: RuntimeOptions,
                         retry: Value, alertType: Value, appId: Option<string>)
    : (r: Result<Manifest.ManifestEndpoint, PyError>)
    ensures r.Ok? <==> BaseEndpoint(funcName, local, global).Ok?
    ensures r.Ok? ==> r.value.(eventTrigger := Null) == BaseEndpoint(funcName, local, global).value
    ensures r.Ok? ==> r.value.eventTrigger == EventTrigger(AlertEventType, retry, AlertFilters(alertType, appId))
  {
    EventEndpoint(funcName, local, global, retry, AlertEventType, AlertFilters(alertType, appId))
  }

  /** The App Distribution, Performance, Crashlytics and Billing options as
      written: they build a fresh `FirebaseAlertOptions` from the alert type
      and app id alone, so the function's own runtime options and `retry`
      never reach the endpoint (Billing passes no app id). */
  function AlertWrapperEndpointAsWritten(funcName: string, local: RuntimeOptions, global: RuntimeOptions,
                                         retry: Value, alertType: Value, appId: Option<string>)
    : (r: Result<Manifest.ManifestEndpoint, PyError>)
    ensures r.Ok?
    ensures r.value.(eventTrigger := Null) == BaseEndpoint(funcName, RuntimeOptions(), global).value
    ensures r.value.eventTrigger == EventTrigger(AlertEventType, Bool(false), AlertFilters(alertType, appId))
  {
    AlertEndpoint(funcName, RuntimeOptions(), global, Null, alertType, appId)
  }

  /** The alert wrappers as intended: the function's own options and retry
      policy carried into the alert endpoint. */
  function AlertWrapperEndpoint(funcName: string, local: RuntimeOptions, global: RuntimeOptions,
                                retry: Value, alertType: Value, appId: Option<string>)
    : (r: Result<Manifest.ManifestEndpoint, PyError>)
    ensures r.Ok? <==> BaseEndpoint(funcName, local, global).Ok?
    ensures r.Ok? ==> r.value.(eventTrigger := Null) == BaseEndpoint(funcName, local, global).value
    ensures r.Ok? ==> r.value.eventTrigger == EventTrigger(AlertEventType, retry, AlertFilters(alertType, appId))
  {
    AlertEndpoint(funcName, local, global, retry, alertType, appId)
  }

  /** A Crashlytics alert function declared with `region="europe-west1"`
      and `retry=True` under the initial globals: as written it is deployed
      with no region and no retry; as intended it keeps both. */
  lemma AlertWrapperDropsOptions(alertType: Value)
    ensures var local := RuntimeOptions(region := Str("europe-west1"));
      var written := AlertWrapperEndpointAsWritten("f", local, RuntimeOptions(), Bool(true), alertType, None);
      var fixed := AlertWrapperEndpoint("f", local, RuntimeOptions(), Bool(true), alertType, None);
      && written.Ok? && fixed.Ok?
      && written.value.region == Null
      && written.value.eventTrigger.entries["retry"] == Bool(false)
      && fixed.value.region == List([Str("europe-west1")])
      && fixed.value.eventTrigger.entries["retry"] == Bool(true)
  {
    var local := RuntimeOptions(region := Str("europe-west1"));
    MergeScalarRule(RuntimeOptions(), RuntimeOptions(), Region);
    MergeScalarRule(local, RuntimeOptions(), Region);
  }

  const DefaultChannel := "locations/us-central1/channels/firebase"

  /** The exact-match filters of a custom event: `{}` when none are given. */
  function EventarcFilters(filters: Option<map<string, string>>): (fs: map<string, Value>)
    ensures fs.Keys == (if filters.Some? then filters.value.Keys else {})
    ensures forall k | k in fs :: fs[k] == Str(filters.value[k])
  {
    match filters
    case None => map[]
    case Some(m) => map k | k in m :: Str(m[k])
  }

  /** The event trigger of a custom event with its channel written in. */
  function ChannelTrigger(eventType: string, retry: Value, filters: Option<map<string, string>>,
                          channel: Option<string>): (t: Value)
    ensures t.Dict? && t.entries.Keys == {"eventType", "retry", "eventFilters", "channel"}
    ensures t.entries["channel"] == Str(channel.GetOr(DefaultChannel))
    ensures forall k | k in t.entries && k != "channel" ::
              t.entries[k] == EventTrigger(eventType, retry, EventarcFilters(filters)).entries[k]
  {
    Dict(EventTrigger(eventType, retry, EventarcFilters(filters)).entries["channel" := Str(channel.GetOr(DefaultChannel))])
  }

  /** `EventarcTriggerOptions._endpoint`, corrected: the filters default to
      `{}` and the channel to the default Firebase channel, written into
      the event trigger after it is built. */
  function EventarcEndpoint(funcName: string, local: RuntimeOptions, global: RuntimeOptions,
                            retry: Value, eventType: string, channel: Option<string>,
                            filters: Option<map<string, string>>)
    : (r: Result<Manifest.ManifestEndpoint, PyError>)
    ensures r.Ok? <==> BaseEndpoint(funcName, local, global).Ok?
    ensures r.Ok? ==> r.value.(eventTrigger := Null) == BaseEndpoint(funcName, local, global).value
    ensures r.Ok? ==> var t := r.value.eventTrigger;
      && t.Dict? && t.entries.Keys == {"eventType", "retry", "eventFilters", "channel"}
      && t.entries["channel"] == Str(channel.GetOr(DefaultChannel))
      && t.entries["eventType"] == Str(eventType)
      && t.entries["retry"] == (if retry.Null? then Bool(false) else retry)
      && t.entries["eventFilters"] == Dict(EventarcFilters(filters))
  {
    var ep :- EventEndpoint(funcName, local, global, retry, eventType, EventarcFilters(filters));
    Ok(ep.(eventTrigger := ChannelTrigger(eventType, retry, filters, channel)))
  }

  // ---------------------------------------------------------------------
  // The second `dataclasses.asdict` of the PubSub, alert and custom event
  // endpoints

  predicate ObjectFree(v: Value)
  {
    match v
    case Expr(_) => false
    case Record(_) => false
    case List(xs) => forall i | 0 <= i < |xs| :: ObjectFree(xs[i])
    case Dict(m) => forall k | k in m :: ObjectFree(m[k])
    case _ => true
  }

  function OptStr(o: Option<string>): (v: Value)
    ensures ObjectFree(v)
  {
    if o.Some? then Str(o.value) else Null
  }

  function OptBool(o: Option<bool>): (v: Value)
    ensures ObjectFree(v)
  {
    if o.Some? then Bool(o.value) else Null
  }

  /** `asdict` of an operand: literals are copied, a nested expression
      becomes the dict of its fields. */
  function OperandAsDict(o: Params.Operand): (v: Value)
    ensures ObjectFree(v)
    decreases o
  {
    match o
    case Str(x) => Str(x)
    case Int(i) => Int(i)
    case Bool(b) => Bool(b)
    case Ref(e) => ExprAsDict(e)
  }

  /** `asdict` of a param's input: the fields of the input dataclass. An
      object outside the three input classes is rendered as `{}`. */
  function InputAsDict(input: Params.ParamInput): (v: Value)
    ensures ObjectFree(v)
    decreases input
  {
    match input
    case TextInput(ex, re, msg) =>
      Dict(map["example" := OptStr(ex), "validation_regex" := OptStr(re),
               "validation_error_message" := OptStr(msg)])
    case ResourceInput(t) => Dict(map["type" := Str(t)])
    case SelectInput(opts) =>
      Dict(map["options" := List(seq(|opts|, i requires 0 <= i < |opts| =>
        Dict(map["value" := OperandAsDict(opts[i].value), "label" := OptStr(opts[i].labelText)])))])
    case OtherInput => Dict(map[])
  }

  /** `asdict` of an expression: params and the compare and ternary
      expressions are frozen dataclasses, so each becomes the dict of its
      declared fields, recursively. */
  function ExprAsDict(e: Params.Expression): (v: Value)
    ensures v.Dict? && ObjectFree(v)
    decreases e
  {
    match e
    case ParamRef(p) =>
      Dict(map["name" := Str(p.name),
               "default" := (if p.default.Some? then OperandAsDict(p.default.value) else Null),
               "label" := OptStr(p.labelText), "description" := OptStr(p.description),
               "immutable" := OptBool(p.immutable),
               "input" := (if p.input.Some? then InputAsDict(p.input.value) else Null)])
    case SecretRef(x) =>
      Dict(map["name" := Str(x.name), "label" := OptStr(x.labelText),
               "description" := OptStr(x.description), "immutable" := OptBool(x.immutable)])
    case Compare(op, l, r) =>
      Dict(map["comparator" := Str(op), "left" := ExprAsDict(l), "right" := OperandAsDict(r)])
    case Ternary(t, a, b) =>
      Dict(map["test" := ExprAsDict(t), "if_true" := OperandAsDict(a), "if_false" := OperandAsDict(b)])
  }

  /** `dataclasses.asdict` on a value held in a dataclass field: nested
      dataclass instances become dicts of their fields, lists and dicts are
      rebuilt around converted elements, anything else is copied. */
  function AsDict(v: Value): (r: Value)
    ensures ObjectFree(r)
    ensures v.Dict? || v.Record? ==> r.Dict?
    ensures v.Dict? ==> r.entries.Keys == v.entries.Keys
    decreases v
  {
    match v
    case Expr(e) => ExprAsDict(e)
    case Record(fs) => Dict(map k | k in fs :: AsDict(fs[k]))
    case Dict(m) => Dict(map k | k in m :: AsDict(m[k]))
    case List(xs) => List(seq(|xs|, i requires 0 <= i < |xs| => AsDict(xs[i])))
    case _ => v
  }

  function AsDictMap(m: map<string, Value>): (r: map<string, Value>)
    ensures r.Keys == m.Keys && forall k | k in m :: r[k] == AsDict(m[k])
  {
    map k | k in m :: AsDict(m[k])
  }

  /** A value holding no dataclass instance passes `asdict` unchanged. */
  lemma {:induction false} AsDictFixesObjectFree(v: Value)
    requires ObjectFree(v)
    ensures AsDict(v) == v
    decreases v
  {
    match v
    case List(xs) =>
      forall i | 0 <= i < |xs| ensures AsDict(xs[i]) == xs[i] {
        AsDictFixesObjectFree(xs[i]);
      }
      assert AsDict(v).items == xs;
    case Dict(m) =>
      forall k | k in m ensures AsDict(m[k]) == m[k] {
        AsDictFixesObjectFree(m[k]);
      }
      assert AsDict(v).entries == m;
    case _ =>
  }

  lemma AsDictMapFixes(m: map<string, Value>)
    requires forall k | k in m :: ObjectFree(m[k])
    ensures AsDictMap(m) == m
  {
    forall k | k in m ensures AsDict(m[k]) == m[k] {
      AsDictFixesObjectFree(m[k]);
    }
  }

  /** `asdict` reaches into the event trigger only through its retry and
      filter values. */
  lemma AsDictEventTrigger(eventType: string, retry: Value, filters: map<string, Value>)
    ensures AsDict(EventTrigger(eventType, retry, filters)) == EventTrigger(eventType, AsDict(retry), AsDictMap(filters))
  {
    var t := EventTrigger(eventType, retry, filters).entries;
    var u := EventTrigger(eventType, AsDict(retry), AsDictMap(filters)).entries;
    forall k | k in t ensures AsDict(t[k]) == u[k] {
      if k == "eventFilters" {
        AsDictOfDict(filters);
      } else if k == "retry" {
        AsDictNull(retry);
      }
    }
    AsDictEntries(t, u);
  }

  lemma AsDictEntries(m: map<string, Value>, m': map<string, Value>)
    requires m.Keys == m'.Keys && forall k | k in m :: AsDict(m[k]) == m'[k]
    ensures AsDict(Dict(m)) == Dict(m')
  {
    AsDictOfDict(m);
  }

  lemma AsDictOfDict(m: map<string, Value>)
    ensures AsDict(Dict(m)) == Dict(AsDictMap(m))
  {
  }

  lemma AsDictNull(v: Value)
    ensures AsDict(v).Null? <==> v.Null?
    ensures AsDict(Bool(false)) == Bool(false)
  {
  }

  /** `PubSubOptions._endpoint` as written: the event endpoint goes through
      `asdict` a second time, now with the raw `retry` inside it. */
  function PubSubEndpointAsWritten(funcName: string, local: RuntimeOptions, global: RuntimeOptions,
                                   retry: Value, topic: string)
    : (r: Result<Manifest.ManifestEndpoint, PyError>)
    ensures r.Ok? <==> BaseEndpoint(funcName, local, global).Ok?
    ensures r.Ok? ==> r.value.(eventTrigger := Null) == BaseEndpoint(funcName, local, global).value
    ensures r.Ok? ==> r.value.eventTrigger == EventTrigger(PubSubEventType, AsDict(retry), map["topic" := Str(topic)])
  {
    var ep :- PubSubEndpoint(funcName, local, global, retry, topic);
    PubSubSecondPass(ep, retry, topic);
    Ok(ep.(eventTrigger := AsDict(ep.eventTrigger)))
  }

  /** The second `asdict` of a Pub/Sub endpoint reaches only the `retry`
      inside its event trigger. */
  lemma PubSubSecondPass(ep: Manifest.ManifestEndpoint, retry: Value, topic: string)
    requires ep.eventTrigger == EventTrigger(PubSubEventType, retry, map["topic" := Str(topic)])
    ensures AsDict(ep.eventTrigger) == EventTrigger(PubSubEventType, AsDict(retry), map["topic" := Str(topic)])
  {
    var fs := map["topic" := Str(topic)];
    AsDictEventTrigger(PubSubEventType, retry, fs);
    AsDictMapFixes(fs);
  }

  /** `FirebaseAlertOptions._endpoint` as written, with the same second
      `asdict`. */
  function AlertEndpointAsWritten(funcName: string, local: RuntimeOptions, global: RuntimeOptions,
                                  retry: Value, alertType: Value, appId: Option<string>)
    : (r: Result<Manifest.ManifestEndpoint, PyError>)
    ensures r.Ok? <==> BaseEndpoint(funcName, local, global).Ok?
    ensures r.Ok? ==> r.value.(eventTrigger := Null) == BaseEndpoint(funcName, local, global).value
    ensures r.Ok? ==> r.value.eventTrigger
                      == EventTrigger(AlertEventType, AsDict(retry), AsDictMap(AlertFilters(alertType, appId)))
  {
    var ep :- AlertEndpoint(funcName, local, global, retry, alertType, appId);
    AsDictEventTrigger(AlertEventType, retry, AlertFilters(alertType, appId));
    Ok(ep.(eventTrigger := AsDict(ep.eventTrigger)))
  }

  /** `EventarcTriggerOptions._endpoint` as written: the second `asdict`
      runs before the channel is written in. */
  function EventarcEndpointAsWritten(funcName: string, local: RuntimeOptions, global: RuntimeOptions,
                                     retry: Value, eventType: string, channel: Option<string>,
                                     filters: Option<map<string, string>>)
    : (r: Result<Manifest.ManifestEndpoint, PyError>)
    ensures r.Ok? <==> BaseEndpoint(funcName, local, global).Ok?
    ensures r.Ok? ==> r.value.(eventTrigger := Null) == BaseEndpoint(funcName, local, global).value
    ensures r.Ok? ==> r.value.eventTrigger == ChannelTrigger(eventType, AsDict(retry), filters, channel)
  {
    var fs := EventarcFilters(filters);
    var ep :- EventEndpoint(funcName, local, global, retry, eventType, fs);
    AsDictEventTrigger(eventType, retry, fs);
    AsDictMapFixes(fs);
    var t := AsDict(ep.eventTrigger);
    Ok(ep.(eventTrigger := Dict(t.entries["channel" := Str(channel.GetOr(DefaultChannel))])))
  }

  /** A retry policy given as a param: the corrected endpoints keep the
      expression, which lowers to its template text, while as written the
      second `asdict` replaces it with the param's fields, which lower to a
      dict holding the param's name. */
  lemma RetryParamDiscrepancy(funcName: string, local: RuntimeOptions, global: RuntimeOptions,
                              p: Params.Param, topic: string, alertType: Value, eventType: string)
    requires BaseEndpoint(funcName, local, global).Ok?
    ensures var retry := Expr(Params.ParamRef(p));
      var written := Manifest.ObjectToSpec(AsDict(retry));
      && written.Dict? && "name" in written.entries && written.entries["name"] == Str(p.name)
      && Manifest.ObjectToSpec(retry) == Str(Params.Display(Params.ParamRef(p)))
      && PubSubEndpointAsWritten(funcName, local, global, retry, topic).value.eventTrigger.entries["retry"] == AsDict(retry)
      && PubSubEndpoint(funcName, local, global, retry, topic).value.eventTrigger.entries["retry"] == retry
      && AlertEndpointAsWritten(funcName, local, global, retry, alertType, None).value.eventTrigger.entries["retry"] == AsDict(retry)
      && AlertEndpoint(funcName, local, global, retry, alertType, None).value.eventTrigger.entries["retry"] == retry
      && EventarcEndpointAsWritten(funcName, local, global, retry, eventType, None, None).value.eventTrigger.entries["retry"] == AsDict(retry)
      && EventarcEndpoint(funcName, local, global, retry, eventType, None, None).value.eventTrigger.entries["retry"] == retry
  {
    var retry := Expr(Params.ParamRef(p));
    var d := AsDict(retry);
    assert d == ExprAsDict(Params.ParamRef(p));
    assert "name" in d.entries && d.entries["name"] == Str(p.name);
  }

  /** On a retry and alert type holding no dataclass instance (a bool,
      `RESET_VALUE`, an enum member, ...) the as-written endpoints are the
      corrected ones. */
  lemma AsWrittenAgrees(funcName: string, local: RuntimeOptions, global: RuntimeOptions,
                        retry: Value, topic: string, alertType: Value, appId: Option<string>,
                        eventType: string, channel: Option<string>, filters: Option<map<string, string>>)
    requires ObjectFree(retry) && ObjectFree(alertType)
    ensures PubSubEndpointAsWritten(funcName, local, global, retry, topic) == PubSubEndpoint(funcName, local, global, retry, topic)
    ensures AlertEndpointAsWritten(funcName, local, global, retry, alertType, appId)
            == AlertEndpoint(funcName, local, global, retry, alertType, appId)
    ensures EventarcEndpointAsWritten(funcName, local, global, retry, eventType, channel, filters)
            == EventarcEndpoint(funcName, local, global, retry, eventType, channel, filters)
  {
    AsDictFixesObjectFree(retry);
    AsDictMapFixes(AlertFilters(alertType, appId));
  }

  /** `timezone` of a schedule: a `Timezone` object, or any other value. */
  datatype TimeZone = Zone(key: string) | ZoneValue(v: Value)

  /** The retry policy of a scheduled function. */
  datatype ScheduleRetry = ScheduleRetry(
    retryCount: Value := Null, maxRetrySeconds: Value := Null, maxBackoffSeconds: Value := Null,
    maxDoublings: Value := Null, minBackoffSeconds: Value := Null)

  /** The `retryConfig` of a schedule trigger: all five fields, `None`
      where unset. */
  function ScheduleRetryValue(c: ScheduleRetry): (v: Value)
    ensures v.Dict? && v.entries.Keys
      == {"retryCount", "maxRetrySeconds", "maxBackoffSeconds", "maxDoublings", "minBackoffSeconds"}
    ensures v.entries["retryCount"] == c.retryCount && v.entries["maxRetrySeconds"] == c.maxRetrySeconds
    ensures v.entries["maxBackoffSeconds"] == c.maxBackoffSeconds && v.entries["maxDoublings"] == c.maxDoublings
    ensures v.entries["minBackoffSeconds"] == c.minBackoffSeconds
  {
    Dict(map["retryCount" := c.retryCount, "maxRetrySeconds" := c.maxRetrySeconds,
             "maxBackoffSeconds" := c.maxBackoffSeconds, "maxDoublings" := c.maxDoublings,
             "minBackoffSeconds" := c.minBackoffSeconds])
  }

  /** `ScheduleOptions._endpoint`: a `Timezone` contributes its key, and
      the retry record is always present, its fields `None` when unset. */
  function ScheduleEndpoint(funcName: string, local: RuntimeOptions, global: RuntimeOptions,
                            schedule: string, timeZone: TimeZone, retry: ScheduleRetry)
    : (r: Result<Manifest.ManifestEndpoint, PyError>)
    ensures r.Ok? <==> BaseEndpoint(funcName, local, global).Ok?
    ensures r.Ok? ==> r.value.(scheduleTrigger := Null) == BaseEndpoint(funcName, local, global).value
    ensures r.Ok? ==> var t := r.value.scheduleTrigger;
      && t.Dict? && t.entries.Keys == {"schedule", "timeZone", "retryConfig"}
      && t.entries["schedule"] == Str(schedule)
      && (timeZone.Zone? ==> t.entries["timeZone"] == Str(timeZone.key))
      && (timeZone.ZoneValue? ==> t.entries["timeZone"] == timeZone.v)
      && t.entries["retryConfig"] == ScheduleRetryValue(retry)
  {
    var ep :- BaseEndpoint(funcName, local, global);
    var zone := match timeZone
      case Zone(key) => Str(key)
      case ZoneValue(v) => v;
    Ok(ep.(scheduleTrigger := Dict(map["schedule" := Str(schedule), "timeZone" := zone,
                                       "retryConfig" := ScheduleRetryValue(retry)])))
  }

  /** `StorageOptions._endpoint`: the bucket is the function's own, else
      the `storageBucket` of the Firebase configuration (passed in; `Null`
      when there is none), else a `ValueError`; that check comes before
      the merge. */
  function StorageEndpoint(funcName: string, local: RuntimeOptions, global: RuntimeOptions,
                           bucket: Value, configBucket: Value, eventType: string)
    : (r: Result<Manifest.ManifestEndpoint, PyError>)
    ensures bucket.Null? && configBucket.Null? ==> r.Err? && r.error.ValueError?
    ensures !(bucket.Null? && configBucket.Null?) ==>
      (r.Ok? <==> BaseEndpoint(funcName, local, global).Ok?)
    ensures r.Ok? ==> r.value.(eventTrigger := Null) == BaseEndpoint(funcName, local, global).value
    ensures r.Ok? ==>
      r.value.eventTrigger == EventTrigger(eventType, Bool(false), map["bucket" := if bucket.Null? then configBucket else bucket])
  {
    var chosen := if bucket.Null? then configBucket else bucket;
    if chosen.Null? then
      Err(ValueError("Missing bucket name. If you are unit testing, please specify a bucket name"
                     + " by providing a bucket name directly to the event handler or by setting the"
                     + " FIREBASE_CONFIG environment variable."))
    else
      EventEndpoint(funcName, local, global, Bool(false), eventType, map["bucket" := chosen])
  }

  /** The event trigger with a split of filters: exact-match filters and
      path-pattern filters. */
  function PatternTrigger(eventType: string, filters: map<string, Value>, patterns: map<string, Value>): (t: Value)
    ensures t.Dict? && t.entries.Keys == {"eventType", "retry", "eventFilters", "eventFilterPathPatterns"}
    ensures t.entries["eventType"] == Str(eventType) && t.entries["retry"] == Bool(false)
    ensures t.entries["eventFilters"] == Dict(filters)
    ensures t.entries["eventFilterPathPatterns"] == Dict(patterns)
  {
    Dict(map["eventType" := Str(eventType), "retry" := Bool(false),
             "eventFilters" := Dict(filters), "eventFilterPathPatterns" := Dict(patterns)])
  }

  /** Places `value` under `key` among the path patterns when the pattern
      has wildcards, among the exact filters otherwise. */
  function SplitFilter(key: string, pattern: PathPattern.PathPattern,
                       filters: map<string, Value>, patterns: map<string, Value>)
    : (r: (map<string, Value>, map<string, Value>))
    ensures pattern.HasWildcards() ==> r == (filters, patterns[key := Str(pattern.raw)])
    ensures !pattern.HasWildcards() ==> r == (filters[key := Str(pattern.raw)], patterns)
  {
    if pattern.HasWildcards() then (filters, patterns[key := Str(pattern.raw)])
    else (filters[key := Str(pattern.raw)], patterns)
  }

  /** `DatabaseOptions._endpoint`: `ref` (stripped of slashes) is always a
      path pattern; the instance is one only when it has wildcards. */
  function DatabaseEndpoint(funcName: string, local: RuntimeOptions, global: RuntimeOptions,
                            reference: string, instance: PathPattern.PathPattern, eventType: string)
    : (r: Result<Manifest.ManifestEndpoint, PyError>)
    ensures r.Ok? <==> BaseEndpoint(funcName, local, global).Ok?
    ensures r.Ok? ==> r.value.(eventTrigger := Null) == BaseEndpoint(funcName, local, global).value
    ensures r.Ok? ==> var t := r.value.eventTrigger;
      && t.Dict? && t.entries.Keys == {"eventType", "retry", "eventFilters", "eventFilterPathPatterns"}
      && t.entries["eventType"] == Str(eventType) && t.entries["retry"] == Bool(false)
      && t.entries["eventFilters"].Dict? && t.entries["eventFilterPathPatterns"].Dict?
  {
    var ep :- BaseEndpoint(funcName, local, global);
    var split := SplitFilter("instance", instance, map[], map["ref" := Str(Strings.Strip(reference, '/'))]);
    Ok(ep.(eventTrigger := PatternTrigger(eventType, split.0, split.1)))
  }

  /** `FirestoreOptions._endpoint`: database and namespace default to
      `"(default)"`; the document is a path pattern only when it has
      wildcards. */
  function FirestoreEndpoint(funcName: string, local: RuntimeOptions, global: RuntimeOptions,
                             database: Option<string>, namespace: Option<string>,
                             document: PathPattern.PathPattern, eventType: string)
    : (r: Result<Manifest.ManifestEndpoint, PyError>)
    ensures r.Ok? <==> BaseEndpoint(funcName, local, global).Ok?
    ensures r.Ok? ==> r.value.(eventTrigger := Null) == BaseEndpoint(funcName, local, global).value
    ensures r.Ok? ==> var t := r.value.eventTrigger;
      && t.Dict? && t.entries.Keys == {"eventType", "retry", "eventFilters", "eventFilterPathPatterns"}
      && t.entries["eventType"] == Str(eventType) && t.entries["retry"] == Bool(false)
      && t.entries["eventFilters"].Dict? && t.entries["eventFilterPathPatterns"].Dict?
  {
    var ep :- BaseEndpoint(funcName, local, global);
    var split := SplitFilter("document", document,
                             map["database" := Str(database.GetOr("(default)")),
                                 "namespace" := Str(namespace.GetOr("(default)"))], map[]);
    Ok(ep.(eventTrigger := PatternTrigger(eventType, split.0, split.1)))
  }

  /** Where the database trigger files the instance and the reference: the
      reference always among the path patterns, the instance among them
      exactly when it has wildcards and among the exact filters
      otherwise. */
  lemma DatabaseFilterSplit(funcName: string, local: RuntimeOptions, global: RuntimeOptions,
                            reference: string, instance: PathPattern.PathPattern, eventType: string)
    requires DatabaseEndpoint(funcName, local, global, reference, instance, eventType).Ok?
    ensures var t := DatabaseEndpoint(funcName, local, global, reference, instance, eventType).value.eventTrigger;
      var filters := t.entries["eventFilters"].entries;
      var patterns := t.entries["eventFilterPathPatterns"].entries;
      && t.entries["eventType"] == Str(eventType)
      && "ref" in patterns && patterns["ref"] == Str(Strings.Strip(reference, '/'))
      && ("instance" in patterns <==> instance.HasWildcards())
      && ("instance" in filters <==> !instance.HasWildcards())
      && ("instance" in patterns ==> patterns["instance"] == Str(instance.raw))
      && ("instance" in filters ==> filters["instance"] == Str(instance.raw))
      && filters.Keys <= {"instance"}
  {
  }

  /** Where the Firestore trigger files the document, and the database and
      namespace filters it always carries. */
  lemma FirestoreFilterSplit(funcName: string, local: RuntimeOptions, global: RuntimeOptions,
                             database: Option<string>, namespace: Option<string>,
                             document: PathPattern.PathPattern, eventType: string)
    requires FirestoreEndpoint(funcName, local, global, database, namespace, document, eventType).Ok?
    ensures var t := FirestoreEndpoint(funcName, local, global, database, namespace, document, eventType).value.eventTrigger;
      var filters := t.entries["eventFilters"].entries;
      var patterns := t.entries["eventFilterPathPatterns"].entries;
      && t.entries["eventType"] == Str(eventType)
      && filters["database"] == Str(database.GetOr("(default)"))
      && filters["namespace"] == Str(namespace.GetOr("(default)"))
      && ("document" in patterns <==> document.HasWildcards())
      && ("document" in filters <==> !document.HasWildcards())
      && ("document" in patterns ==> patterns["document"] == Str(document.raw))
      && ("document" in filters ==> filters["document"] == Str(document.raw))
      && patterns.Keys <= {"document"}
  {
  }

  /** `BlockingOptions._endpoint`: the three token flags default to
      `False`. */
  function BlockingEndpoint(funcName: string, local: RuntimeOptions, global: RuntimeOptions,
                            idToken: Option<bool>, accessToken: Option<bool>, refreshToken: Option<bool>,
                            eventType: string)
    : (r: Result<Manifest.ManifestEndpoint, PyError>)
    ensures r.Ok? <==> BaseEndpoint(funcName, local, global).Ok?
    ensures r.Ok? ==> r.value.(blockingTrigger := Null) == BaseEndpoint(funcName, local, global).value
    ensures r.Ok? ==> var t := r.value.blockingTrigger;
      && t.Dict? && t.entries.Keys == {"eventType", "options"}
      && t.entries["eventType"] == Str(eventType)
      && t.entries["options"] == Dict(map["idToken" := Bool(idToken.GetOr(false)),
                                          "accessToken" := Bool(accessToken.GetOr(false)),
                                          "refreshToken" := Bool(refreshToken.GetOr(false))])
  {
    var ep :- BaseEndpoint(funcName, local, global);
    var flags := Dict(map["idToken" := Bool(idToken.GetOr(false)),
                          "accessToken" := Bool(accessToken.GetOr(false)),
                          "refreshToken" := Bool(refreshToken.GetOr(false))]);
    Ok(ep.(blockingTrigger := Dict(map["eventType" := Str(eventType), "options" := flags])))
  }

  /** `invoker` of an HTTPS function: one string, or a list. */
  datatype Invoker = OneInvoker(name: string) | Invokers(names: seq<string>)

  function InvokerNames(inv: Invoker): (r: seq<string>)
    ensures inv.OneInvoker? ==> r == [inv.name]
    ensures inv.Invokers? ==> r == inv.names
  {
    match inv
    case OneInvoker(n) => [n]
    case Invokers(ns) => ns
  }

  /** The invoker checks as written: the length test demands more than one
      entry, which turns away every single invoker. */
  function CheckInvokerAsWritten(inv: Invoker): (r: Result<seq<string>, PyError>)
    ensures r.Ok? <==> |InvokerNames(inv)| > 1 && "" !in InvokerNames(inv)
                       && "private" !in InvokerNames(inv) && "public" !in InvokerNames(inv)
    ensures r.Ok? ==> r.value == InvokerNames(inv)
    ensures r.Err? ==> r.error.AssertionError?
  {
    var names := InvokerNames(inv);
    if !(|names| > 1) then
      Err(AssertionError("HttpsOptions: Invalid option for invoker - must be a non-empty list."))
    else if "" in names then
      Err(AssertionError("HttpsOptions: Invalid option for invoker - must be a non-empty string."))
    else if |names| > 1 && ("private" in names || "public" in names) then
      Err(AssertionError("HttpsOptions: Cannot have 'public' or 'private' in a list of service accounts."))
    else Ok(names)
  }

  /** The invoker checks as intended: a non-empty list of non-empty names,
      where `"public"` and `"private"` may only stand alone. */
  function CheckInvoker(inv: Invoker): (r: Result<seq<string>, PyError>)
    ensures r.Ok? <==> |InvokerNames(inv)| > 0 && "" !in InvokerNames(inv)
                       && (|InvokerNames(inv)| > 1 ==> "private" !in InvokerNames(inv) && "public" !in InvokerNames(inv))
    ensures r.Ok? ==> r.value == InvokerNames(inv)
    ensures r.Err? ==> r.error.AssertionError?
  {
    var names := InvokerNames(inv);
    if !(|names| > 0) then
      Err(AssertionError("HttpsOptions: Invalid option for invoker - must be a non-empty list."))
    else if "" in names then
      Err(AssertionError("HttpsOptions: Invalid option for invoker - must be a non-empty string."))
    else if |names| > 1 && ("private" in names || "public" in names) then
      Err(AssertionError("HttpsOptions: Cannot have 'public' or 'private' in a list of service accounts."))
    else Ok(names)
  }

  /** `invoker="public"`, the documented way to open a function to
      everyone, is refused as written and accepted as intended; the two
      checks agree on every list of two or more names. */
  lemma InvokerCheckDiscrepancy(names: seq<string>)
    requires |names| > 1
    ensures CheckInvokerAsWritten(OneInvoker("public")).Err?
    ensures CheckInvoker(OneInvoker("public")) == Ok(["public"])
    ensures CheckInvokerAsWritten(Invokers(names)) == CheckInvoker(Invokers(names))
  {
  }

  /** An HTTPS function declared with `invoker="public"` fails to deploy
      as written; as intended its trigger lists `["public"]`. */
  lemma PublicHttpsFunction(funcName: string)
    ensures HttpsEndpointAsWritten(funcName, RuntimeOptions(), RuntimeOptions(), Some(OneInvoker("public")), false).Err?
    ensures var r := HttpsEndpoint(funcName, RuntimeOptions(), RuntimeOptions(), Some(OneInvoker("public")), false);
      r.Ok? && r.value.httpsTrigger == Dict(map["invoker" := List([Str("public")])])
  {
    SingleInvokerRefused(funcName, RuntimeOptions(), RuntimeOptions(), "public");
    SingleInvokerTrigger(funcName, RuntimeOptions(), RuntimeOptions(), "public");
  }

  /** As written, a single invoker is always turned away. */
  lemma SingleInvokerRefused(funcName: string, local: RuntimeOptions, global: RuntimeOptions, name: string)
    ensures HttpsEndpointAsWritten(funcName, local, global, Some(OneInvoker(name)), false).Err?
  {
    assert InvokerNames(OneInvoker(name)) == [name];
  }

  /** As intended, a single non-empty invoker becomes the one-name invoker
      list of the HTTPS trigger. */
  lemma SingleInvokerTrigger(funcName: string, local: RuntimeOptions, global: RuntimeOptions, name: string)
    requires BaseEndpoint(funcName, local, global).Ok? && name != ""
    ensures var r := HttpsEndpoint(funcName, local, global, Some(OneInvoker(name)), false);
      r.Ok? && r.value.httpsTrigger == Dict(map["invoker" := List([Str(name)])])
  {
    assert CheckInvoker(OneInvoker(name)) == Ok([name]);
    var r := HttpsEndpoint(funcName, local, global, Some(OneInvoker(name)), false);
    var entries := r.value.httpsTrigger.entries;
    assert entries.Keys == {"invoker"};
    assert entries["invoker"].items == [Str(name)];
    assert entries == map["invoker" := List([Str(name)])];
  }

  /** The HTTPS endpoint, with the invoker check as a parameter so that
      both versions share the rest. */
  function HttpsWith(funcName: string, local: RuntimeOptions, global: RuntimeOptions,
                     invoker: Option<Invoker>, isCallable: bool, checked: Option<Result<seq<string>, PyError>>)
    : (r: Result<Manifest.ManifestEndpoint, PyError>)
    requires invoker.Some? <==> checked.Some?
  {
    var ep :- BaseEndpoint(funcName, local, global);
    if isCallable then
      Ok(ep.(labels := Dict(ep.labels.entries["deployment-callable" := Str("true")]),
             callableTrigger := Dict(map[])))
    else if checked.None? then
      Ok(ep.(httpsTrigger := Dict(map[])))
    else
      var names :- checked.value;
      Ok(ep.(httpsTrigger := Dict(map["invoker" := List(seq(|names|, i requires 0 <= i < |names| => Str(names[i])))])))
  }

  /** `HttpsOptions._endpoint` as written. */
  function HttpsEndpointAsWritten(funcName: string, local: RuntimeOptions, global: RuntimeOptions,
                                  invoker: Option<Invoker>, isCallable: bool)
    : (r: Result<Manifest.ManifestEndpoint, PyError>)
    ensures r.Ok? <==> BaseEndpoint(funcName, local, global).Ok?
                       && (isCallable || invoker.None? || CheckInvokerAsWritten(invoker.value).Ok?)
    ensures r.Ok? ==> r == HttpsEndpoint(funcName, local, global, invoker, isCallable)
  {
    HttpsWith(funcName, local, global, invoker, isCallable,
              if invoker.Some? then Some(CheckInvokerAsWritten(invoker.value)) else None)
  }

  /** `HttpsOptions._endpoint` with the intended invoker check: a callable
      function gets the `deployment-callable` label and a callable trigger;
      any other gets an HTTPS trigger carrying the checked invoker list. */
  function HttpsEndpoint(funcName: string, local: RuntimeOptions, global: RuntimeOptions,
                         invoker: Option<Invoker>, isCallable: bool)
    : (r: Result<Manifest.ManifestEndpoint, PyError>)
    ensures r.Ok? <==> BaseEndpoint(funcName, local, global).Ok?
                       && (isCallable || invoker.None? || CheckInvoker(invoker.value).Ok?)
    ensures r.Ok? && isCallable ==>
      && r.value.callableTrigger == Dict(map[]) && r.value.httpsTrigger.Null?
      && r.value.labels == Dict(BaseEndpoint(funcName, local, global).value.labels.entries["deployment-callable" := Str("true")])
      && r.value.(labels := Null, callableTrigger := Null)
         == BaseEndpoint(funcName, local, global).value.(labels := Null)
    ensures r.Ok? && !isCallable ==>
      && r.value.(httpsTrigger := Null) == BaseEndpoint(funcName, local, global).value
      && r.value.httpsTrigger.Dict?
      && r.value.httpsTrigger.entries.Keys == (if invoker.Some? then {"invoker"} else {})
    ensures r.Ok? && !isCallable && invoker.Some? ==>
      var names := InvokerNames(invoker.value);
      var listed := r.value.httpsTrigger.entries["invoker"];
      listed.List? && |listed.items| == |names| && forall i | 0 <= i < |names| :: listed.items[i] == Str(names[i])
  {
    HttpsWith(funcName, local, global, invoker, isCallable,
              if invoker.Some? then Some(CheckInvoker(invoker.value)) else None)
  }

  /** `_required_apis` of the trigger kinds that need one. */
  const TaskQueueApis := [Manifest.RequiredApi("cloudtasks.googleapis.com", "Needed for task queue functions")]
  const EventarcApis := [Manifest.RequiredApi("eventarcpublishing.googleapis.com", "Needed for custom event functions")]
  const ScheduleApis := [Manifest.RequiredApi("cloudscheduler.googleapis.com", "Needed for scheduled functions.")]
  const BlockingApis := [Manifest.RequiredApi("identitytoolkit.googleapis.com", "Needed for auth blocking functions")]
}
