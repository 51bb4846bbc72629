/** Realtime Database event handling (`db_fn.py`): what the handler
    receives as `event.data` for each kind of event, the path parameters
    it extracts from the reference and the instance, and the instance
    pattern the decorators use when none is given. */
module Db {
  import opened Wrappers
  import opened Values
  import Util
  import PathPattern
  import Options
  import Strings

  const Written := "google.firebase.database.ref.v1.written"
  const Created := "google.firebase.database.ref.v1.created"
  const Updated := "google.firebase.database.ref.v1.updated"
  const Deleted := "google.firebase.database.ref.v1.deleted"

  /** `event.data`: a plain value, or a `Change` for writes and updates. */
  datatype EventData = Single(value: Value) | Change(before: Value, after: Value)

  /** `d[key]` on the event payload. */
  function Field(data: map<string, Value>, key: string): (r: Result<Value, PyError>)
    ensures key in data <==> r.Ok?
    ensures r.Ok? ==> r.value == data[key]
  {
    if key in data then Ok(data[key]) else Err(KeyError(key))
  }

  /** The `after` view of a write: the delta merged into the old data with
      the `None`s it leaves pruned, when both are dicts; the raw delta
      otherwise. The merge is the corrected `Util.DeepMerge`, under which a
      dict in the delta replaces a scalar in the old data. */
  function AfterView(before: Value, delta: Value): (r: Value)
    ensures !(before.Dict? && delta.Dict?) ==> r == delta
    ensures before.Dict? && delta.Dict? ==> r == Dict(Util.PruneNones(Util.DeepMerge(before.entries, delta.entries)))
  {
    if before.Dict? && delta.Dict? then Dict(Util.PruneNones(Util.DeepMerge(before.entries, delta.entries)))
    else delta
  }

  /** The `after` view with `deep_merge` as written: it raises where the
      old data holds a scalar under a key at which the delta holds a dict. */
  function AfterViewAsWritten(before: Value, delta: Value): (r: Result<Value, PyError>)
    ensures !(before.Dict? && delta.Dict?) ==> r == Ok(delta)
    ensures before.Dict? && delta.Dict? ==> (r.Ok? <==> Util.MergeAsWritten(before, delta).Some?)
    ensures r.Err? ==> r.error == AttributeError
  {
    if before.Dict? && delta.Dict? then
      match Util.MergeAsWritten(before, delta)
      case Some(m) => Ok(Dict(Util.PruneNones(m.entries)))
      case None => Err(AttributeError)
    else Ok(delta)
  }

  /** On old data and a delta of compatible shape the as-written view is
      the corrected one. */
  lemma AfterViewAsWrittenAgrees(before: map<string, Value>, delta: map<string, Value>)
    requires Util.Compatible(Dict(before), Dict(delta))
    ensures AfterViewAsWritten(Dict(before), Dict(delta)) == Ok(AfterView(Dict(before), Dict(delta)))
  {
    Util.MergeAsWrittenAgrees(Dict(before), Dict(delta));
    assert Util.DeepMerge(before, delta) == Util.MergeValue(Dict(before), Dict(delta)).entries;
  }

  /** A write whose delta puts a dict where the old data has a scalar makes
      the handler raise as written, where the corrected view holds the
      delta's dict there. */
  lemma AfterViewAsWrittenRaises(before: map<string, Value>, delta: map<string, Value>, k: string)
    requires k in before && k in delta && delta[k].Dict? && !before[k].Dict? && !before[k].List?
    ensures AfterViewAsWritten(Dict(before), Dict(delta)).Err?
    ensures var after := AfterView(Dict(before), Dict(delta));
      after.Dict? && k in after.entries && after.entries[k].Dict?
  {
    assert Util.NodeAt(before, k) == before[k];
    assert Util.MergeAsWritten(Util.NodeAt(before, k), delta[k]).None?;
  }

  /** The data part of `_db_endpoint_handler`: a deletion carries the old
      data, a creation the delta, a write or update the change from the
      old data to the after view; any other event type the whole payload. */
  function SelectData(eventType: string, data: map<string, Value>): (r: Result<EventData, PyError>)
    ensures eventType == Deleted ==> r == Field(data, "data").MapOk(v => Single(v))
    ensures eventType == Created ==> r == Field(data, "delta").MapOk(v => Single(v))
    ensures eventType == Written || eventType == Updated ==>
      (r.Ok? <==> "data" in data && "delta" in data)
    ensures (eventType == Written || eventType == Updated) && r.Ok? ==>
      r.value == Change(data["data"], AfterView(data["data"], data["delta"]))
    ensures eventType !in {Written, Created, Updated, Deleted} ==> r == Ok(Single(Dict(data)))
  {
    if eventType == Deleted then
      var v :- Field(data, "data");
      Ok(Single(v))
    else if eventType == Created then
      var v :- Field(data, "delta");
      Ok(Single(v))
    else if eventType == Written || eventType == Updated then
      var before :- Field(data, "data");
      var after :- Field(data, "delta");
      Ok(Change(before, AfterView(before, after)))
    else Ok(Single(Dict(data)))
  }

  /** What the after view of a write holds at a top-level key: a `None`
      in the delta deletes the key, any other non-dict delta value
      replaces it, a key the delta does not touch keeps its (pruned) old
      value, and nothing in the result is `None`. */
  lemma AfterViewEntries(before: map<string, Value>, delta: map<string, Value>, k: string)
    ensures var after := AfterView(Dict(before), Dict(delta));
      && after.Dict? && Util.NoNones(after)
      && (k in delta && delta[k].Null? ==> k !in after.entries)
      && (k in delta && !delta[k].Null? && !delta[k].Dict? ==> k in after.entries && after.entries[k] == delta[k])
      && (k !in delta && k in before && !before[k].Null? ==> k in after.entries && after.entries[k] == Util.Prune(before[k]))
      && (k !in delta && k !in before ==> k !in after.entries)
  {
  }

  /** `params`: the matches of the reference pattern, overridden on a
      clash by those of the instance pattern. */
  function Params(refPattern: PathPattern.PathPattern, instancePattern: PathPattern.PathPattern,
                  reference: string, instance: string)
    : (r: Result<map<string, string>, PyError>)
    ensures r.Ok? <==> PathPattern.ExtractMatches(refPattern, Some(reference)).Ok?
                       && PathPattern.ExtractMatches(instancePattern, Some(instance)).Ok?
    ensures r.Ok? ==> var refs := PathPattern.ExtractMatches(refPattern, Some(reference)).value;
      var insts := PathPattern.ExtractMatches(instancePattern, Some(instance)).value;
      && r.value.Keys == refs.Keys + insts.Keys
      && (forall k | k in insts :: r.value[k] == insts[k])
      && (forall k | k in refs && k !in insts :: r.value[k] == refs[k])
  {
    var refs :- PathPattern.ExtractMatches(refPattern, Some(reference));
    var insts :- PathPattern.ExtractMatches(instancePattern, Some(instance));
    Ok(refs + insts)
  }

  /** The instance pattern of the decorators: the given instance, else
      `"*"`, which listens on every instance and binds nothing. */
  function InstancePattern(instance: Option<string>): (p: PathPattern.PathPattern)
    ensures instance.Some? ==> p.raw == Strings.Strip(instance.value, '/')
    ensures instance.None? ==> p.raw == "*" && p.HasWildcards() && !p.HasCaptures()
  {
    var p := PathPattern.Parse(instance.GetOr("*"));
    assert instance.None? ==> p.raw == "*" && p.HasWildcards() && !p.HasCaptures() by {
      if instance.None? {
        PathPattern.StarPattern();
        assert Strings.Strip("*", '/') == "*";
      }
    }
    p
  }

  /** An instance pattern with wildcards and no captures is filed among
      the path patterns and binds no parameters. */
  lemma WildcardInstance(funcName: string, local: Options.RuntimeOptions, global: Options.RuntimeOptions,
                         reference: string, eventType: string, p: PathPattern.PathPattern, instance: string)
    requires p.HasWildcards() && !p.HasCaptures()
    requires Options.DatabaseEndpoint(funcName, local, global, reference, p, eventType).Ok?
    ensures var t := Options.DatabaseEndpoint(funcName, local, global, reference, p, eventType).value.eventTrigger;
      && "instance" in t.entries["eventFilterPathPatterns"].entries
      && t.entries["eventFilterPathPatterns"].entries["instance"] == Str(p.raw)
      && "instance" !in t.entries["eventFilters"].entries
    ensures PathPattern.ExtractMatches(p, Some(instance)) == Ok(map[])
  {
    Options.DatabaseFilterSplit(funcName, local, global, reference, p, eventType);
  }

  /** A function declared without an instance listens on every instance:
      its instance filter is the path pattern `"*"`, never an exact
      filter, and it contributes no parameters. */
  lemma DefaultInstance(funcName: string, local: Options.RuntimeOptions, global: Options.RuntimeOptions,
                        reference: string, eventType: string, given: Option<string>, instance: string)
    requires given.None?
    requires Options.DatabaseEndpoint(funcName, local, global, reference, InstancePattern(given), eventType).Ok?
    ensures var t := Options.DatabaseEndpoint(funcName, local, global, reference, InstancePattern(given), eventType)
                       .value.eventTrigger;
      && t.Dict? && "eventFilterPathPatterns" in t.entries && "eventFilters" in t.entries
      && t.entries["eventFilterPathPatterns"].Dict? && t.entries["eventFilters"].Dict?
      && Get(t.entries["eventFilterPathPatterns"].entries, "instance") == Str("*")
      && "instance" !in t.entries["eventFilters"].entries
    ensures PathPattern.ExtractMatches(InstancePattern(given), Some(instance)) == Ok(map[])
  {
    var p := InstancePattern(given);
    WildcardInstance(funcName, local, global, reference, eventType, p, instance);
    assert p.raw == "*";
  }
}
