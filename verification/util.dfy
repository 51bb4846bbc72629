/** The pure helpers of `private/util.py`: pruning and deep merging of
    JSON-like dicts, camel-casing of keys, path normalization, the callable
    request checks, the token-state mapping and the timestamp-precision
    classifier. */
module Util {
  import opened Wrappers
  import opened Strings
  import opened Values

  // ---------------------------------------------------------------------
  // prune_nones

  /** A value with no `None` entry in any dict reachable through dicts. */
  predicate NoNones(v: Value)
  {
    match v
    case Dict(m) => forall k | k in m :: !m[k].Null? && NoNones(m[k])
    case _ => true
  }

  /** `prune_nones`: `None` entries go at every dict level; lists and other
      values are left alone. */
  function Prune(v: Value): (r: Value)
    ensures NoNones(r)
    ensures v.Dict? <==> r.Dict?
    ensures !v.Dict? ==> r == v
    ensures v.Dict? ==> r.entries.Keys == set k | k in v.entries && !v.entries[k].Null?
  {
    match v
    case Dict(m) => Dict(map k | k in m && !m[k].Null? :: Prune(m[k]))
    case _ => v
  }

  function PruneNones(m: map<string, Value>): (r: map<string, Value>)
    ensures NoNones(Dict(r))
    ensures r.Keys == set k | k in m && !m[k].Null?
    ensures forall k | k in r :: r[k] == Prune(m[k])
  {
    Prune(Dict(m)).entries
  }

  /** Pruning leaves a value without `None`s alone, so it is idempotent. */
  lemma {:induction false} PruneFixesNoNones(v: Value)
    requires NoNones(v)
    ensures Prune(v) == v
    decreases v
  {
    match v
    case Dict(m) =>
      forall k | k in m ensures Prune(m[k]) == m[k] {
        PruneFixesNoNones(m[k]);
      }
      assert Prune(v).entries == m;
    case _ =>
  }

  lemma PruneIdempotent(v: Value)
    ensures Prune(Prune(v)) == Prune(v)
  {
    PruneFixesNoNones(Prune(v));
  }

  // ---------------------------------------------------------------------
  // deep_merge

  /** The merge of `node` with `v`: a dict `v` is merged key by key into
      `node` (an absent or non-dict `node` counting as `{}`), any other `v`
      replaces `node`. */
  function MergeValue(node: Value, v: Value): (r: Value)
    ensures v.Dict? ==> r.Dict? && r.entries.Keys == (if node.Dict? then node.entries.Keys else {}) + v.entries.Keys
    ensures !v.Dict? ==> r == v
    decreases v
  {
    match v
    case Dict(m2) =>
      var m1 := if node.Dict? then node.entries else map[];
      Dict(map k | k in m1.Keys + m2.Keys ::
             if k in m2 then (if m2[k].Dict? then MergeValue(Get(m1, k), m2[k]) else m2[k])
             else m1[k])
    case _ => v
  }

  /** `deep_merge`, with a non-dict value of `d1` met by a dict of `d2`
      treated as `{}` (see the as-written model below). */
  function DeepMerge(d1: map<string, Value>, d2: map<string, Value>): (r: map<string, Value>)
    decreases Dict(d2)
    ensures r.Keys == d1.Keys + d2.Keys
    ensures forall k | k in d1 && k !in d2 :: r[k] == d1[k]
    ensures forall k | k in d2 && !d2[k].Dict? :: r[k] == d2[k]
    ensures forall k | k in d2 && d2[k].Dict? ::
              r[k] == Dict(DeepMerge(if k in d1 && d1[k].Dict? then d1[k].entries else map[], d2[k].entries))
  {
    var r := MergeValue(Dict(d1), Dict(d2)).entries;
    assert forall k | k in d2 && d2[k].Dict? ::
      r[k] == MergeValue(Get(d1, k), d2[k]);
    r
  }

  /** Merging into `{}` copies the second dict. */
  lemma {:induction false} MergeIntoEmpty(v: Value)
    ensures MergeValue(Dict(map[]), v) == v
    ensures forall node: Value | !node.Dict? :: MergeValue(node, v) == v
    decreases v
  {
    match v
    case Dict(m) =>
      forall k | k in m && m[k].Dict? ensures MergeValue(Null, m[k]) == m[k] {
        MergeIntoEmpty(m[k]);
        assert MergeValue(Null, m[k]) == MergeValue(Dict(map[]), m[k]);
      }
      assert MergeValue(Dict(map[]), v).entries == m;
    case _ =>
  }

  lemma DeepMergeEmptyLeft(d: map<string, Value>)
    ensures DeepMerge(map[], d) == d
  {
    MergeIntoEmpty(Dict(d));
  }

  /** Merging a dict with nothing leaves it unchanged. */
  lemma DeepMergeEmptyRight(d: map<string, Value>)
    ensures DeepMerge(d, map[]) == d
  {
  }

  /** Merging a value into itself gives it back. */
  lemma {:induction false} MergeSelf(v: Value)
    ensures MergeValue(v, v) == v
    decreases v
  {
    match v
    case Dict(m) =>
      forall k | k in m && m[k].Dict? ensures MergeValue(Get(m, k), m[k]) == m[k] {
        MergeSelf(m[k]);
      }
      assert MergeValue(v, v).entries == m;
    case _ =>
  }

  lemma DeepMergeIdempotent(d: map<string, Value>)
    ensures DeepMerge(d, d) == d
  {
    MergeSelf(Dict(d));
  }

  /** The entry `.get(key, {})` fetches. */
  function NodeAt(m: map<string, Value>, k: string): Value
  {
    if k in m then m[k] else Dict(map[])
  }

  /** `deep_merge(node, v)` exactly as written, for a dict `v`: `node` is
      `.copy()`ed, which only dicts and lists have; for each dict value of
      `v` the existing entry is fetched with `.get(key, {})` and merged
      recursively, and every other value of `v` is stored. A list `node`
      survives only an empty `v`: storing into it fails. `None` stands for
      the `AttributeError` or `TypeError` raised. */
  function MergeAsWritten(node: Value, v: Value): (r: Option<Value>)
    requires v.Dict?
    ensures !node.Dict? && !node.List? ==> r.None?
    ensures node.List? ==> (r.Some? <==> |v.entries| == 0)
    ensures r.Some? && node.Dict? ==> r.value.Dict? && r.value.entries.Keys == node.entries.Keys + v.entries.Keys
    decreases v
  {
    var m2 := v.entries;
    match node
    case Dict(m1) =>
      if forall k | k in m2 && m2[k].Dict? :: MergeAsWritten(NodeAt(m1, k), m2[k]).Some? then
        Some(Dict(map k | k in m1.Keys + m2.Keys ::
                    if k in m2 then
                      (if m2[k].Dict? then MergeAsWritten(NodeAt(m1, k), m2[k]).value else m2[k])
                    else m1[k]))
      else None
    case List(_) => if |m2| == 0 then Some(node) else None
    case _ => None
  }

  /** `node` and the dict `v` agree in shape: every key where `v` holds a
      dict is absent from `node` or holds a dict there too, recursively. */
  predicate Compatible(node: Value, v: Value)
    requires node.Dict? && v.Dict?
    decreases v
  {
    forall k | k in v.entries && v.entries[k].Dict? ::
      k !in node.entries || (node.entries[k].Dict? && Compatible(node.entries[k], v.entries[k]))
  }

  /** On dicts of compatible shape the as-written merge succeeds and agrees
      with `DeepMerge`. */
  lemma {:induction false} MergeAsWrittenAgrees(node: Value, v: Value)
    requires node.Dict? && v.Dict? && Compatible(node, v)
    ensures MergeAsWritten(node, v) == Some(MergeValue(node, v))
    decreases v
  {
    var m1 := node.entries;
    var m2 := v.entries;
    forall k | k in m2 && m2[k].Dict?
      ensures MergeAsWritten(NodeAt(m1, k), m2[k]) == Some(MergeValue(Get(m1, k), m2[k]))
    {
      if k in m1 {
        MergeAsWrittenAgrees(m1[k], m2[k]);
      } else {
        assert Compatible(Dict(map[]), m2[k]);
        MergeAsWrittenAgrees(Dict(map[]), m2[k]);
        assert MergeValue(Dict(map[]), m2[k]) == MergeValue(Null, m2[k]);
      }
    }
    var r := MergeAsWritten(node, v);
    assert r.Some?;
    assert r.value.entries == MergeValue(node, v).entries;
  }

  /** A scalar in the first dict met by a dict in the second makes the
      as-written merge raise, where the delta evidently should replace it:
      `deep_merge({"a": 1}, {"a": {"b": 2}})` is one instance. */
  lemma DeepMergeScalarThenDict(k: string, scalar: Value, inner: map<string, Value>)
    requires !scalar.Dict? && !scalar.List?
    ensures MergeAsWritten(Dict(map[k := scalar]), Dict(map[k := Dict(inner)])).None?
    ensures DeepMerge(map[k := scalar], map[k := Dict(inner)]) == map[k := Dict(inner)]
  {
    ScalarThenDictRaises(k, scalar, inner);
    ScalarThenDictReplaced(k, scalar, inner);
  }

  lemma ScalarThenDictRaises(k: string, scalar: Value, inner: map<string, Value>)
    requires !scalar.Dict? && !scalar.List?
    ensures MergeAsWritten(Dict(map[k := scalar]), Dict(map[k := Dict(inner)])).None?
  {
    var m1 := map[k := scalar];
    var m2 := map[k := Dict(inner)];
    assert NodeAt(m1, k) == scalar;
    assert MergeAsWritten(NodeAt(m1, k), m2[k]).None?;
  }

  lemma ScalarThenDictReplaced(k: string, scalar: Value, inner: map<string, Value>)
    requires !scalar.Dict? && !scalar.List?
    ensures DeepMerge(map[k := scalar], map[k := Dict(inner)]) == map[k := Dict(inner)]
  {
    var r := DeepMerge(map[k := scalar], map[k := Dict(inner)]);
    assert r.Keys == {k};
    assert r[k] == Dict(DeepMerge(map[], inner));
    DeepMergeEmptyLeft(inner);
  }

  // ---------------------------------------------------------------------
  // convert_keys_to_camel_case

  function UpperChar(ch: char): char
  {
    if 'a' <= ch <= 'z' then (ch as int - 32) as char else ch
  }

  /** `str.capitalize` on ASCII: the first letter upper-cased, the rest
      lower-cased. */
  function Capitalize(w: string): (r: string)
    ensures |r| == |w|
    ensures |w| > 0 ==> r[0] == UpperChar(w[0])
    ensures forall i | 1 <= i < |w| :: r[i] == LowerChar(w[i])
  {
    if |w| == 0 then "" else [UpperChar(w[0])] + ToLower(w[1..])
  }

  /** The concatenation of a sequence of strings. */
  function Concat(ws: seq<string>): string
  {
    if |ws| == 0 then "" else ws[0] + Concat(ws[1..])
  }

  /** `snake_to_camel`: the first `_`-separated component, then every
      other component capitalized. */
  function SnakeToCamel(word: string): (r: string)
  {
    var parts := Split(word, '_');
    parts[0] + Concat(seq(|parts| - 1, i requires 0 <= i < |parts| - 1 => Capitalize(parts[i + 1])))
  }

  lemma {:induction false} ConcatNoChar(ws: seq<string>, c: char)
    requires forall i | 0 <= i < |ws| :: c !in ws[i]
    ensures c !in Concat(ws)
  {
    if |ws| > 0 {
      ConcatNoChar(ws[1..], c);
    }
  }

  /** Camel-cased keys hold no underscore, and a key without one is kept
      as it is. */
  lemma SnakeToCamelShape(word: string)
    ensures '_' !in SnakeToCamel(word)
    ensures '_' !in word ==> SnakeToCamel(word) == word
  {
    var parts := Split(word, '_');
    var caps := seq(|parts| - 1, i requires 0 <= i < |parts| - 1 => Capitalize(parts[i + 1]));
    forall i | 0 <= i < |caps| ensures '_' !in caps[i] {
      assert '_' !in parts[i + 1];
    }
    ConcatNoChar(caps, '_');
  }

  /** `convert_keys_to_camel_case` over the dict's items in order: a later
      item wins when two keys camel-case alike. */
  function ConvertKeysToCamelCase(items: seq<(string, Value)>): (r: map<string, Value>)
    ensures r.Keys == set i | 0 <= i < |items| :: SnakeToCamel(items[i].0)
    ensures |items| > 0 ==> r[SnakeToCamel(items[|items| - 1].0)] == items[|items| - 1].1
  {
    if |items| == 0 then map[]
    else
      var init := ConvertKeysToCamelCase(items[..|items| - 1]);
      var (k, v) := items[|items| - 1];
      assert forall i | 0 <= i < |items| - 1 :: items[..|items| - 1][i] == items[i];
      init[SnakeToCamel(k) := v]
  }

  /** Every item ends up under its camel-cased key unless a later item
      takes that key. */
  lemma {:induction false} CamelCaseLastWins(items: seq<(string, Value)>, i: nat)
    requires i < |items|
    requires forall j | i < j < |items| :: SnakeToCamel(items[j].0) != SnakeToCamel(items[i].0)
    ensures ConvertKeysToCamelCase(items)[SnakeToCamel(items[i].0)] == items[i].1
  {
    if i < |items| - 1 {
      var init := items[..|items| - 1];
      assert init[i] == items[i];
      CamelCaseLastWins(init, i);
    }
  }

  // ---------------------------------------------------------------------
  // normalize_path

  /** `normalize_path`: every leading and trailing `/` removed. */
  function NormalizePath(path: string): (r: string)
    ensures |r| == 0 || (r[0] != '/' && r[|r| - 1] != '/')
  {
    var r := Strip(path, '/');
    assert |r| > 0 ==> r[0] == StripLeft(path, '/')[0];
    r
  }

  /** Normalizing drops exactly the outer slashes and keeps the inner ones,
      and normalizing twice is normalizing once. */
  lemma NormalizePathProperties(path: string, inner: string, m: nat, n: nat)
    requires |inner| == 0 || (inner[0] != '/' && inner[|inner| - 1] != '/')
    ensures NormalizePath(Repeat('/', m) + inner + Repeat('/', n)) == inner
    ensures NormalizePath(NormalizePath(path)) == NormalizePath(path)
  {
    StripPadding(inner, '/', m, n);
    StripIdempotent(path, '/');
  }

  // ---------------------------------------------------------------------
  // Callable request checks

  /** `_on_call_valid_content_type`: present, and equal to
      `application/json` ignoring case once anything from the first `;` is
      dropped and the rest trimmed. Without a `;` nothing is trimmed. */
  predicate ValidContentType(contentType: Option<string>)
  {
    contentType.Some? &&
    var ct := contentType.value;
    var main := if ';' in ct then TrimSpace(ct[..FirstIndex(ct, ';')]) else ct;
    ToLower(main) == "application/json"
  }

  /** `_on_call_valid_method`. */
  predicate ValidMethod(httpMethod: string)
  {
    httpMethod == "POST"
  }

  /** `_on_call_valid_body` on the parsed JSON body (`None` when there is
      none). For a dict, `"data" in json` tests the keys; for a list its
      elements and for a string its substrings, after which `.keys()` raises;
      for a number or bool the test itself raises. */
  function ValidBody(json: Option<Value>): (r: Result<bool, PyError>)
    ensures json.Some? && json.value.Dict? ==>
              r == Ok("data" in json.value.entries && json.value.entries.Keys == {"data"})
    ensures json.None? || json.value.Null? ==> r == Ok(false)
    ensures json.Some? && json.value.List? ==> (r.Err? <==> Str("data") in json.value.items)
    ensures json.Some? && json.value.Str? ==> (r.Err? <==> Contains(json.value.s, "data"))
    ensures json.Some? && (json.value.Bool? || json.value.Int?) ==> r.Err?
    ensures r.Ok? && r.value ==> json.Some? && json.value.Dict?
  {
    if json.None? || json.value.Null? then Ok(false)
    else
      match json.value
      case Dict(m) =>
        if "data" !in m then Ok(false)
        else Ok(m.Keys - {"data"} == {})
      case List(xs) => if Str("data") in xs then Err(AttributeError) else Ok(false)
      case Str(s) => if Contains(s, "data") then Err(AttributeError) else Ok(false)
      case _ => Err(TypeError)
  }

  /** `valid_on_call_request`. */
  function ValidOnCallRequest(httpMethod: string, contentType: Option<string>, json: Option<Value>)
    : (r: Result<bool, PyError>)
    ensures !ValidMethod(httpMethod) || !ValidContentType(contentType) ==> r == Ok(false)
    ensures ValidMethod(httpMethod) && ValidContentType(contentType) ==> r == ValidBody(json)
  {
    if ValidMethod(httpMethod) && ValidContentType(contentType) then ValidBody(json) else Ok(false)
  }

  // ---------------------------------------------------------------------
  // Token states

  /** `OnCallTokenState`. */
  datatype TokenState = Missing | Valid | Invalid

  /** What a token check returns: `None`, `OnCallTokenState.INVALID`, or
      the decoded token. */
  datatype CheckOutcome = NoToken | Rejected | Decoded(token: map<string, Value>)

  /** `_OnCallTokenVerification`, defaulting to `INVALID` and no tokens. */
  datatype TokenVerification = TokenVerification(
    app: TokenState := Invalid,
    appToken: Option<map<string, Value>> := None,
    auth: TokenState := Invalid,
    authToken: Option<map<string, Value>> := None)

  function StateOf(outcome: CheckOutcome): (s: TokenState)
    ensures s == Missing <==> outcome.NoToken?
    ensures s == Valid <==> outcome.Decoded?
    ensures s == Invalid <==> outcome.Rejected?
  {
    match outcome
    case NoToken => Missing
    case Decoded(_) => Valid
    case Rejected => Invalid
  }

  /** `on_call_check_tokens`, given what the two token checks returned. */
  function CheckTokens(authOutcome: CheckOutcome, appOutcome: CheckOutcome): (v: TokenVerification)
    ensures v.auth == StateOf(authOutcome) && v.app == StateOf(appOutcome)
    ensures v.authToken.Some? <==> authOutcome.Decoded?
    ensures authOutcome.Decoded? ==> v.authToken.value == authOutcome.token
    ensures v.appToken.Some? <==> appOutcome.Decoded?
    ensures appOutcome.Decoded? ==> v.appToken.value == appOutcome.token
  {
    var v := TokenVerification();
    var v := match authOutcome
      case NoToken => v.(auth := Missing)
      case Decoded(t) => v.(auth := Valid, authToken := Some(t))
      case Rejected => v;
    match appOutcome
    case NoToken => v.(app := Missing)
    case Decoded(t) => v.(app := Valid, appToken := Some(t))
    case Rejected => v
  }

  // ---------------------------------------------------------------------
  // get_precision_timestamp

  datatype Precision = Nanoseconds | Microseconds | Seconds

  /** `get_precision_timestamp`: `SECONDS` unless the text has exactly one
      `.`; then the fraction is cut at `Z` if it has one, else at `z`, and
      that cut must leave exactly two pieces or `ValueError` escapes; more
      than six characters before the zone mean nanoseconds. */
  function PrecisionTimestamp(time: string): (r: Result<Precision, PyError>)
    ensures |Split(time, '.')| != 2 ==> r == Ok(Seconds)
    ensures r.Ok? && r.value != Seconds ==> |Split(time, '.')| == 2
  {
    var dotParts := Split(time, '.');
    if |dotParts| != 2 then Ok(Seconds)
    else
      var fraction := dotParts[1];
      var zoneParts := if 'Z' in fraction then Split(fraction, 'Z') else Split(fraction, 'z');
      if |zoneParts| != 2 then Err(ValueError("not enough values to unpack"))
      else if |zoneParts[0]| > 6 then Ok(Nanoseconds)
      else Ok(Microseconds)
  }

  /** A timestamp with one `.`, a fraction of digits and a single `Z` is
      classified by the number of fraction digits. */
  lemma PrecisionOfFraction(stamp: string, digits: string)
    requires '.' !in stamp && AllDigits(digits)
    ensures PrecisionTimestamp(stamp + "." + digits + "Z")
            == Ok(if |digits| > 6 then Nanoseconds else Microseconds)
  {
    var fraction := digits + "Z";
    var time := stamp + "." + digits + "Z";
    assert time == stamp + ['.'] + fraction;
    assert '.' !in fraction by {
      assert forall i | 0 <= i < |fraction| :: fraction[i] != '.';
    }
    DotSplit(stamp, fraction);
    ZoneSplit(digits);
    PrecisionOfParts(time, stamp, fraction, digits);
  }

  /** Text with no `.` on either side of one `.` splits into those two sides. */
  lemma DotSplit(stamp: string, fraction: string)
    requires '.' !in stamp && '.' !in fraction
    ensures Split(stamp + ['.'] + fraction, '.') == [stamp, fraction]
  {
    SplitHead(stamp, '.', fraction);
    assert Split(fraction, '.') == [fraction];
  }

  /** A run of digits closed by `Z` splits at the `Z` into the digits and
      the empty rest. */
  lemma ZoneSplit(digits: string)
    requires AllDigits(digits)
    ensures 'Z' in digits + "Z" && Split(digits + "Z", 'Z') == [digits, ""]
  {
    var fraction := digits + "Z";
    assert fraction[|digits|] == 'Z';
    assert 'Z' !in digits by {
      assert forall i | 0 <= i < |digits| :: digits[i] != 'Z';
    }
    assert fraction == digits + ['Z'] + "";
    SplitHead(digits, 'Z', "");
  }

  /** The precision `PrecisionTimestamp` reads off a stamp once its two
      splits are known. */
  lemma PrecisionOfParts(time: string, stamp: string, fraction: string, digits: string)
    requires Split(time, '.') == [stamp, fraction]
    requires 'Z' in fraction && Split(fraction, 'Z') == [digits, ""]
    ensures PrecisionTimestamp(time) == Ok(if |digits| > 6 then Nanoseconds else Microseconds)
  {
  }
}
