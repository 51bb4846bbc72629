# firebase-functions-python, modelled in Dafny

This project models the core of the Firebase Functions SDK for Python: the
part that turns decorated Python functions into a deployment manifest, and
the request and event handling the generated wrappers perform at run time.

- **Options** (`options.py`): runtime options are merged with the global
  options and lowered into a `ManifestEndpoint`. That covers reset
  sentinels, labels, secrets, region, VPC and the
  `preserve_external_changes` switch. One trigger record is built per
  trigger kind: task queue, event, Pub/Sub, Firebase alerts, Eventarc,
  schedule, Storage, Realtime Database, Firestore, auth blocking and HTTPS.
  The trigger kinds that need an API also list the API they require.
- **Manifest** (`private/manifest.py`): the lowering of enums, expressions,
  dataclasses, lists and dicts (`_object_to_spec` and its helpers), params
  turned into manifest entries, and the stack dictionary.
- **Serving** (`private/serving.py`): `to_spec`, the merge of required APIs
  and the tree given to the YAML dump, where sentinels become nulls.
- **Params** (`params.py`): CEL rendering of params and expressions,
  registration and its name rules, and how a value is resolved from the
  environment, including comparison and ternary expressions.
- **Path patterns** (`private/path_pattern.py`): `path_parts`, `join_path`,
  `trim_param`, how segments are classified, and `extract_matches`.
- **Util** (`private/util.py`): `prune_nones`, `deep_merge`, camel-casing
  of keys, `normalize_path`, the callable-request checks, token states and
  the timestamp-precision classifier.
- **Https** (`https_fn.py`): the error-code table, the error and response
  envelopes, the validation of callable requests, CORS headers, and the
  App Check enforcement flag.
- **Identity** (`private/_identity_fn.py`): validation of blocking-function
  responses (reserved claims, payload size limits), the response payload,
  and the fields picked out of the token data.
- **Db** (`db_fn.py`): what a database handler receives as event data,
  its path parameters, and the default instance pattern.
- **Core** (`core.py`): the hook that runs an init callback once.

Python values are modelled by `Values.Value`, a JSON-like tree that also
holds enum members, deferred expressions and the reset sentinel. An
exception becomes the `Err` side of a `Result`. Where the order of a
dict's entries can be observed, the dict is an association list.

Things the code cannot compute are parameters of the model:

- the environment;
- the token-verification results;
- the length of a `json.dumps`;
- the Firebase configuration's storage bucket;
- the parsed request body.

## Model

| member | source | states |
|---|---|---|
| Values.Get | src/firebase_functions/options.py:315-318 | `dict.get`: the stored value for a present key, `None` for a missing one |
| Values.FromOperand | src/firebase_functions/private/manifest.py:232-233 | a param default keeps its literal; only a reference to another expression becomes an expression |
| Strings.FirstIndex | src/firebase_functions/private/util.py:148-151 | `str.index` for a present character: the position holds it and no earlier position does |
| Strings.FirstIndexUnique | src/firebase_functions/private/util.py:148-151 | the position found by `str.index` is the only one holding the first occurrence |
| Strings.Split | src/firebase_functions/private/path_pattern.py:23 | `str.split` on one character always yields at least one part, and no part contains the separator |
| Strings.JoinSplit | src/firebase_functions/private/path_pattern.py:138 | joining the parts of a split with the separator gives back the original text |
| Strings.SplitJoin | src/firebase_functions/private/path_pattern.py:27 | splitting a join of separator-free parts gives back the parts |
| Strings.SplitHead | src/firebase_functions/private/util.py:363 | a separator-free head followed by the separator splits off as the first part |
| Strings.StripLeft | src/firebase_functions/private/util.py:404 | `lstrip` removes exactly the leading run of the character |
| Strings.StripRight | src/firebase_functions/private/util.py:404 | `rstrip` removes exactly the trailing run of the character |
| Strings.Repeat | src/firebase_functions/private/util.py:404 | a run of `n` copies of one character, the padding `strip` removes |
| Strings.StripLeftPadding | src/firebase_functions/private/util.py:404 | `lstrip` removes any number of leading copies and stops at the first other character |
| Strings.StripRightPadding | src/firebase_functions/private/util.py:404 | `rstrip` removes any number of trailing copies and stops at the last other character |
| Strings.StripPadding | src/firebase_functions/private/util.py:404 | `strip` removes exactly the outer padding, however long it is |
| Strings.StripIdempotent | src/firebase_functions/private/util.py:404 | stripping twice is the same as stripping once |
| Strings.ToLower | src/firebase_functions/params.py:351 | lower-casing keeps the length and lower-cases every character |
| Strings.DigitChar | src/firebase_functions/params.py:322 | the decimal digit character of a value below ten |
| Strings.NatToString | src/firebase_functions/params.py:322 | `str(n)` for a natural number is a non-empty run of digits |
| Strings.DigitsOfNat | src/firebase_functions/params.py:322 | the digits of `str(n)` read back as `n` |
| Strings.ParseIntToString | src/firebase_functions/params.py:322 | `int(str(i)) == i` for every integer |
| Strings.TrimSpace | src/firebase_functions/private/util.py:151 | `str.strip()` removes whitespace only: the result is no longer, and neither end of a non-empty result is whitespace |
| Strings.TrimSpacePadding | src/firebase_functions/private/util.py:151 | stripping removes exactly the leading and trailing whitespace, Python's full `str.isspace` set included, and keeps the text between |
| Strings.ParseInt | src/firebase_functions/params.py:321 | `int()` of blank text raises `ValueError`, and every failure is a `ValueError` |
| Strings.ParseIntSpaces | src/firebase_functions/params.py:321 | whitespace around the digits does not change what `int()` gives |
| Strings.ParseIntGrouped | src/firebase_functions/params.py:321 | a single underscore between digit groups is accepted and ignored |
| Strings.ParseIntBadUnderscores | src/firebase_functions/params.py:321 | a leading, trailing or doubled underscore is refused |
| Strings.LiteralNegative | src/firebase_functions/params.py:321 | a minus sign before digits gives the negated value |
| Strings.StrLessTrichotomy | src/firebase_functions/params.py:103-110 | Python's string `<` is a strict total order |
| Util.Prune | src/firebase_functions/private/util.py:71-77 | `prune_nones` leaves no `None` at any dict level, keeps exactly the keys whose value is not `None`, and leaves non-dicts alone |
| Util.PruneNones | src/firebase_functions/private/util.py:71-77 | the pruned dict has no `None`s, and its keys are those of the input that held a value |
| Util.PruneFixesNoNones | src/firebase_functions/private/util.py:71-77 | pruning changes nothing in a tree without `None`s |
| Util.PruneIdempotent | src/firebase_functions/private/util.py:71-77 | pruning twice is pruning once |
| Util.MergeValue | src/firebase_functions/private/util.py:80-88 | a dict is merged key by key and any other value replaces |
| Util.DeepMerge | src/firebase_functions/private/util.py:80-88 | the keys of a merge are the keys of both dicts; keys only in the first keep their value; non-dict values of the second win; dict values of the second merge recursively |
| Util.MergeIntoEmpty | src/firebase_functions/private/util.py:80-88 | merging into `{}` (or into a missing entry) copies the second value |
| Util.DeepMergeEmptyLeft | src/firebase_functions/private/util.py:80-88 | `deep_merge({}, d) == d` |
| Util.DeepMergeEmptyRight | src/firebase_functions/private/util.py:80-88 | `deep_merge(d, {}) == d` |
| Util.MergeSelf | src/firebase_functions/private/util.py:80-88 | merging a value with itself gives it back |
| Util.DeepMergeIdempotent | src/firebase_functions/private/util.py:80-88 | `deep_merge(d, d) == d` |
| Util.MergeAsWritten | src/firebase_functions/private/util.py:80-88 | `deep_merge` as written raises for a node that is neither a dict nor a list; a list node survives only an empty dict; a dict node gets the keys of both dicts |
| Util.MergeAsWrittenAgrees | src/firebase_functions/private/util.py:80-88 | on dicts of compatible shape the as-written merge succeeds and equals the corrected merge |
| Util.DeepMergeScalarThenDict | src/firebase_functions/private/util.py:80-88 | a scalar met by a dict makes the as-written merge raise; the corrected merge replaces the scalar with the dict |
| Util.Capitalize | src/firebase_functions/private/util.py:105 | `str.capitalize`: the first letter upper-cased, all others lower-cased, length kept |
| Util.ConcatNoChar | src/firebase_functions/private/util.py:105 | a concatenation of words without a character has none of it |
| Util.SnakeToCamelShape | src/firebase_functions/private/util.py:103-105 | camel-cased keys hold no underscore, and a key without one is unchanged |
| Util.ConvertKeysToCamelCase | src/firebase_functions/private/util.py:100-107 | the keys of the result are the camel-cased keys of the input, and the last item wins its key |
| Util.CamelCaseLastWins | src/firebase_functions/private/util.py:107 | every item ends up under its camel-cased key unless a later item claims that key |
| Util.NormalizePath | src/firebase_functions/private/util.py:399-404 | a normalized path neither starts nor ends with `/` |
| Util.NormalizePathProperties | src/firebase_functions/private/util.py:399-404 | normalizing removes exactly the outer slashes, keeps inner ones, and is idempotent |
| Util.ValidBody | src/firebase_functions/private/util.py:110-130 | a dict body is valid exactly when its only key is `data`; a missing body is invalid; a list or string body raises exactly when it contains `"data"`, a number or bool always raises; only a dict can be valid |
| Util.ValidOnCallRequest | src/firebase_functions/private/util.py:91-97 | a callable request is valid only as a POST with a JSON content type, and then exactly when its body is valid |
| Util.StateOf | src/firebase_functions/private/util.py:248-260 | a missing token is `MISSING`, a decoded one `VALID`, a rejected one `INVALID` (both directions) |
| Util.CheckTokens | src/firebase_functions/private/util.py:243-260 | each token state comes from its own check, and a decoded token is kept exactly when its check decoded it |
| Util.PrecisionTimestamp | src/firebase_functions/private/util.py:360-376 | a stamp with other than one `.` is `SECONDS`; any finer precision needs exactly one `.` |
| Util.PrecisionOfFraction | src/firebase_functions/private/util.py:360-376 | a stamp `…​.digitsZ` is nanoseconds exactly when it has more than six fraction digits, else microseconds |
| Util.PrecisionOfParts | src/firebase_functions/private/util.py:360-376 | once the two splits are known, the precision depends only on the fraction length |
| PathPattern.PathParts | src/firebase_functions/private/path_pattern.py:20-23 | `path_parts`: no parts for `None`, `""` or `"/"`; otherwise no part contains `/` |
| PathPattern.JoinCleanEnds | src/firebase_functions/private/path_pattern.py:26-27 | a join of clean parts neither starts nor ends with `/` |
| PathPattern.PathPartsOfClean | src/firebase_functions/private/path_pattern.py:20-27 | a path joined from non-empty slash-free parts splits back into exactly those parts |
| PathPattern.PathPartsOfJoin | src/firebase_functions/private/path_pattern.py:20-27 | the parts of `join_path(base, child)` are the parts of base followed by those of child |
| PathPattern.TrimParam | src/firebase_functions/private/path_pattern.py:30-34 | a trimmed parameter name never contains `=` |
| PathPattern.TrimParamPlain | src/firebase_functions/private/path_pattern.py:30-34 | `trim_param("{name}") == name` |
| PathPattern.TrimParamWithPattern | src/firebase_functions/private/path_pattern.py:30-34 | `trim_param("{name=pattern}") == name` |
| PathPattern.CaptureRun | src/firebase_functions/private/path_pattern.py:37 | the longest run of characters allowed inside a capture (`[^/{}]`) |
| PathPattern.CaptureCountSkip | src/firebase_functions/private/path_pattern.py:37 | a brace-free prefix adds no regex match |
| PathPattern.Classify | src/firebase_functions/private/path_pattern.py:137-149 | a part is a capture exactly when the regex matches once, and a multi-capture exactly when that part also holds `**`; the value is kept |
| PathPattern.Parse | src/firebase_functions/private/path_pattern.py:131-149 | the raw path is the input stripped of `/`; there is one segment per `/`-separated part, each classified |
| PathPattern.ParseRoundTrip | src/firebase_functions/private/path_pattern.py:131-149 | the segments' values joined by `/` give back the normalized path |
| PathPattern.ParseEmpty | src/firebase_functions/private/path_pattern.py:131-149 | `""` and `"/"` parse to one empty literal segment |
| PathPattern.PyIndex | src/firebase_functions/private/path_pattern.py:178 | Python indexing: negative indices count from the end; out of range raises `IndexError` (both directions) |
| PathPattern.SliceBound | src/firebase_functions/private/path_pattern.py:181 | a slice bound is clamped to the list and kept when already in range |
| PathPattern.PySlice | src/firebase_functions/private/path_pattern.py:181 | Python slicing never raises and agrees with the plain slice on in-range bounds |
| PathPattern.Bind | src/firebase_functions/private/path_pattern.py:177-181 | a literal binds nothing; a single capture binds the part at the walk's index; a multi-capture binds the joined run up to the next index |
| PathPattern.Walk | src/firebase_functions/private/path_pattern.py:173-182 | the loop either binds exactly the remaining capture names or fails with `IndexError` |
| PathPattern.ExtractMatches | src/firebase_functions/private/path_pattern.py:167-183 | a pattern without captures gives `{}`; otherwise the matches hold exactly the capture names, or `IndexError` is raised |
| PathPattern.MultisBounds | src/firebase_functions/private/path_pattern.py:182 | the count of `**` segments grows by at most one per segment |
| PathPattern.IndexFacts | src/firebase_functions/private/path_pattern.py:175-182 | on a well-formed pattern and path, every single segment's walk index lies within the path |
| PathPattern.PathIndexStep | src/firebase_functions/private/path_pattern.py:175-182 | the loop's path index advances by one per segment, except that a `**` jumps to the parts left for the segments after it |
| PathPattern.BindStep | src/firebase_functions/private/path_pattern.py:177-182 | one loop step binds the segment's own value and nothing else |
| PathPattern.WalkUnfold | src/firebase_functions/private/path_pattern.py:173-182 | once a segment has bound, the loop carries on from the next segment, at the path index the `**` rule gives |
| PathPattern.BindingsExtend | src/firebase_functions/private/path_pattern.py:177-182 | binding a segment keeps the bindings of the earlier segments, since capture names are distinct |
| PathPattern.WalkBinds | src/firebase_functions/private/path_pattern.py:173-182 | from any segment, at its path index, the loop succeeds and binds every capture to its own value |
| PathPattern.WalkEnd | src/firebase_functions/private/path_pattern.py:173-183 | past the last segment the loop returns the matches bound so far |
| PathPattern.NoMultiBindsOwnIndex | src/firebase_functions/private/path_pattern.py:178-182 | without `**`, every capture is single and binds the path part at its own index |
| PathPattern.ExtractMatchesBinds | src/firebase_functions/private/path_pattern.py:167-183 | on a well-formed pattern and path, extraction succeeds, and each capture maps to its part (or, for `**`, its joined run) |
| PathPattern.CaptureCountBraced | src/firebase_functions/private/path_pattern.py:37 | a braced capture name is one regex match |
| PathPattern.CaptureCountThree | src/firebase_functions/private/path_pattern.py:37 | three braced names separated by brace-free text are three matches |
| PathPattern.SinglePartPattern | src/firebase_functions/private/path_pattern.py:131-149 | a slash-free template is one segment |
| PathPattern.LiteralPart | src/firebase_functions/private/path_pattern.py:142-148 | a part without exactly one capture is a literal and extracts nothing |
| PathPattern.ThreeCapturesAreLiteral | src/firebase_functions/private/path_pattern.py:141-148 | a part with three captures is a literal, so nothing is extracted from any path |
| PathPattern.CapturesAreWildcards | src/firebase_functions/private/path_pattern.py:156-165 | a pattern with captures has wildcards |
| PathPattern.StarPattern | src/firebase_functions/private/path_pattern.py:76-82 | the `*` pattern is one literal that has wildcards and no captures |
| Params.Unwrap | src/firebase_functions/params.py:37-38 | a template's inner text is its CEL, framed by `{{ ` and ` }}` |
| Params.UnwrapDisplay | src/firebase_functions/params.py:37-38 | `str(expr)` can be undone: unwrapping it gives its CEL back |
| Params.ParamCelInjective | src/firebase_functions/params.py:233-234 | two params render to the same CEL reference exactly when their names agree |
| Params.Names | src/firebase_functions/params.py:58 | the registry's names, in declaration order |
| Params.Register | src/firebase_functions/params.py:237-245 | registration succeeds exactly for an upper-snake name not yet declared, appends the param, and otherwise raises `ValueError` |
| Params.DeclareParam | src/firebase_functions/params.py:233-245 | built-in default params skip registration; every other param is registered |
| Params.DeclareSecret | src/firebase_functions/params.py:275-285 | a secret param is registered exactly when its name is valid and not yet taken, appended after the earlier params; otherwise it raises `ValueError` |
| Params.RegisterKeepsUnique | src/firebase_functions/params.py:241-245 | registration never lets two entries share a name |
| Params.RedeclareFails | src/firebase_functions/params.py:241-244 | declaring a name a second time raises the duplicate-parameter error |
| Params.PyOrder | src/firebase_functions/params.py:103-110 | ordering comparisons succeed exactly between two numbers or two strings |
| Params.OrderComplements | src/firebase_functions/params.py:103-110 | `>=` is the negation of `<`, and `<=` of `>` |
| Params.OrderConverse | src/firebase_functions/params.py:103-110 | `b > a` is `a < b` |
| Params.ParamValue | src/firebase_functions/params.py:223-355 | the bare base class raises `NotImplementedError`; a string param reads the environment as is; an int param parses it; a bool param yields a bool; an unset param falls back to its literal default, or resolves an expression default in the same environment; with no default it is `""`, `0` or `False` by type |
| Params.Value | src/firebase_functions/params.py:79-112 | a secret reads the environment or `""`; a comparison propagates the left side's error; `==` is Python equality of the left value and the right operand; the four orderings are Python's ordering (which may raise); an unknown comparator raises `ValueError` |
| Params.IntParamFromEnv | src/firebase_functions/params.py:320-322 | an int param whose environment entry is `str(i)` resolves to `i` |
| Params.BoolParamFromEnv | src/firebase_functions/params.py:348-351 | a bool param is true exactly when its environment entry lower-cases to `true` |
| Params.ParamZeroValue | src/firebase_functions/params.py:304-355 | with no environment entry and no default, every param resolves to a falsy zero value |
| Params.TernarySelects | src/firebase_functions/params.py:79-80 | a ternary yields its first branch exactly when its test is truthy (or both branches agree) |
| Manifest.ObjectToSpec | src/firebase_functions/private/manifest.py:253-265 | lowering gives `None` exactly for `None` or an enum member whose value is `None` |
| Manifest.DictToSpec | src/firebase_functions/private/manifest.py:268-286 | a lowered dict keeps exactly the entries that are not `None`, each lowered |
| Manifest.DataclassToSpec | src/firebase_functions/private/manifest.py:276-282 | a lowered dataclass keeps exactly the fields whose lowered value is not `None` |
| Manifest.ListToSpec | src/firebase_functions/private/manifest.py:260-261 | a lowered list keeps its length and lowers every element |
| Manifest.ObjectToSpecLowers | src/firebase_functions/private/manifest.py:253-286 | lowering reaches a tree without enum members, expressions or dataclasses |
| Manifest.ObjectToSpecFixesLowered | src/firebase_functions/private/manifest.py:253-286 | an already lowered tree is unchanged, so lowering is idempotent |
| Manifest.FalsyEntriesKept | src/firebase_functions/private/manifest.py:271-272 | `False`, `0`, `[]` and `{}` survive lowering; only `None` is dropped |
| Manifest.SentinelKept | src/firebase_functions/private/manifest.py:271-272 | the reset sentinel survives lowering unchanged |
| Manifest.PutField | src/firebase_functions/private/manifest.py:279-281 | one field is stored lowered unless its lowered value is `None` |
| Manifest.FieldsToSpec | src/firebase_functions/private/manifest.py:276-282 | the result holds no `None`, and only declared field names |
| Manifest.FieldsToSpecKeeps | src/firebase_functions/private/manifest.py:276-282 | with distinct names, each field is present, lowered, exactly when its lowered value is not `None` |
| Manifest.EndpointToSpec | src/firebase_functions/private/manifest.py:140-165 | an endpoint lowers field by field: present exactly when not `None`, and only endpoint fields |
| Manifest.DefaultEndpointSpec | src/firebase_functions/private/manifest.py:143-159 | a bare endpoint lowers to platform `gcfv2`, an empty region list and an empty secret list, nothing else |
| Manifest.PresentStrings | src/firebase_functions/private/manifest.py:189-196 | only the options' own keys appear; with distinct keys, an option appears exactly when it is set, and then as its string |
| Manifest.ParamInputToSpec | src/firebase_functions/private/manifest.py:183-219 | a text input gives `{text}`, a resource `{resource: {type}}`, a select `{select}`, anything else `{}` |
| Manifest.SelectOptionsToSpec | src/firebase_functions/private/manifest.py:210-215 | one dict per select option, in order, holding its value and its label when set |
| Manifest.TypeTag | src/firebase_functions/private/manifest.py:237-248 | the type tag of a param, and `NotImplementedError` exactly for the bare base class |
| Manifest.DefaultToSpec | src/firebase_functions/private/manifest.py:232-233 | a default is written as a literal or as an expression's template text, never as `None` or a live expression |
| Manifest.ParamFields | src/firebase_functions/private/manifest.py:224-246 | the entry holds name, type, label, description and immutability (`None` when unset); a default exactly for a plain param with one, written as its template text or literal; an input exactly for a plain param with one |
| Manifest.ParamToSpec | src/firebase_functions/private/manifest.py:222-250 | fails exactly when the type tag does; otherwise the lowered entry keeps name and type; label, description and immutability appear exactly when set, with their values; the default appears exactly for a plain param with one, as its template text or literal; an input exactly when given |
| Manifest.ParamsToSpec | src/firebase_functions/private/manifest.py:293 | the params list succeeds exactly when every param lowers, and keeps their number |
| Manifest.StackToSpec | src/firebase_functions/private/manifest.py:289-291 | the stack lowers to endpoints by name, the spec version and the required-API list |
| Manifest.ApisToSpec | src/firebase_functions/private/manifest.py:168-170 | one `{api, reason}` dict per required API, in order |
| Manifest.ManifestToSpecDict | src/firebase_functions/private/manifest.py:289-294 | it is the lowered stack, plus `params` exactly when the stack has params; it fails exactly when a param fails |
| Serving.Convert | src/firebase_functions/private/serving.py:56-63 | `convert_value`: dicts stay dicts (an enum member never becomes one); lists keep their length |
| Serving.ToSpec | src/firebase_functions/private/serving.py:55-66 | `to_spec` keeps exactly the non-`None` entries, each converted |
| Serving.ConvertIsLowering | src/firebase_functions/private/serving.py:55-66 | on plain trees `to_spec` is the manifest lowering |
| Serving.ConvertFixesLowered | src/firebase_functions/private/serving.py:55-66 | a lowered manifest passes through `to_spec` unchanged |
| Serving.ToSpecIdempotent | src/firebase_functions/private/serving.py:55-66 | applying `to_spec` twice is the same as once |
| Serving.ToSpecKeepsSentinel | src/firebase_functions/private/serving.py:65 | a reset sentinel survives `to_spec`, so a reset option reaches the YAML |
| Serving.RenderSentinels | src/firebase_functions/private/serving.py:109-115 | the YAML representer writes every sentinel as null and keeps the shape of the tree |
| Serving.RenderFixesSentinelFree | src/firebase_functions/private/serving.py:109-115 | a tree without sentinels is written unchanged |
| Serving.FirstPos | src/firebase_functions/private/serving.py:76-77 | the position of the first occurrence |
| Serving.FirstPosAppend | src/firebase_functions/private/serving.py:76-77 | appending does not move a first occurrence |
| Serving.Dedup | src/firebase_functions/private/serving.py:76-81 | the distinct elements, nothing lost and nothing repeated |
| Serving.OrderedAppend | src/firebase_functions/private/serving.py:84-85 | appending keeps the first-occurrence order |
| Serving.OrderedExtend | src/firebase_functions/private/serving.py:84-85 | a new element extends the order at the end |
| Serving.DedupOrder | src/firebase_functions/private/serving.py:84-85 | the distinct elements come in order of first occurrence |
| Serving.DedupAppend | src/firebase_functions/private/serving.py:76-81 | a repeated element adds nothing; a new one is appended |
| Serving.DedupDistinct | src/firebase_functions/private/serving.py:76-81 | a list without repetitions is its own dedup |
| Serving.TableApis | src/firebase_functions/private/serving.py:84 | the APIs of the table, in insertion order |
| Serving.Apis | src/firebase_functions/private/serving.py:74 | the APIs of the input entries, in order |
| Serving.Rows | src/firebase_functions/private/serving.py:72-81 | one row per API, each with that API's distinct reasons |
| Serving.Reference | src/firebase_functions/private/serving.py:72-81 | the table the first loop is meant to build: distinct APIs in order of first occurrence |
| Serving.ReasonsForAppend | src/firebase_functions/private/serving.py:75 | an entry adds its reason to its own API only |
| Serving.NoReasonsWithoutApi | src/firebase_functions/private/serving.py:75 | an API that never occurs has no reasons |
| Serving.RowOther | src/firebase_functions/private/serving.py:76-81 | an entry for another API leaves a row alone |
| Serving.ApisAppend | src/firebase_functions/private/serving.py:76-77 | a known API keeps the API list; a new one is appended |
| Serving.RowSame | src/firebase_functions/private/serving.py:79-81 | an entry's reason joins its API's row unless it is already there |
| Serving.AddKnownApi | src/firebase_functions/private/serving.py:76-81 | a further reason for a known API updates that API's row only |
| Serving.AddKnownRow | src/firebase_functions/private/serving.py:79-81 | updating a known row agrees with the reference rows |
| Serving.AddNewApi | src/firebase_functions/private/serving.py:76-81 | the first reason for a new API opens a row at the end |
| Serving.AddNewRow | src/firebase_functions/private/serving.py:76-81 | an entry for an API not yet in the table appends that API's row after the existing rows |
| Serving.NewRow | src/firebase_functions/private/serving.py:76-81 | the row of an API seen for the first time holds just that entry's reason |
| Serving.OtherRows | src/firebase_functions/private/serving.py:76-81 | an entry leaves the rows of all other APIs as they were |
| Serving.CollectIsReference | src/firebase_functions/private/serving.py:72-81 | the loop builds exactly the reference table |
| Serving.MergeRequiredApisSpec | src/firebase_functions/private/serving.py:69-87 | one entry per distinct API, in order of first occurrence; each API's distinct reasons are joined by single spaces in first-seen order |
| Serving.MergeDistinctUnchanged | src/firebase_functions/private/serving.py:69-87 | a list without repeated APIs comes back unchanged |
| Serving.SingleReason | src/firebase_functions/private/serving.py:69-87 | with distinct APIs, each API's only reason is its own |
| Serving.MergeIdempotent | src/firebase_functions/private/serving.py:69-87 | merging an already merged list changes nothing |
| Serving.Endpoints | src/firebase_functions/private/serving.py:93-95 | the endpoints dict has one key per function name, and the last function with a name wins |
| Serving.CollectApis | src/firebase_functions/private/serving.py:93-98 | every required API of every function is collected, and nothing else |
| Serving.ToSpecOfManifest | src/firebase_functions/private/serving.py:106-107 | `to_spec` keeps every top-level entry of the lowered manifest |
| Serving.EndpointNames | src/firebase_functions/private/serving.py:106-107 | `to_spec` keeps the endpoint names |
| Serving.ApisUnchanged | src/firebase_functions/private/serving.py:106-107 | the required-API list passes `to_spec` unchanged |
| Serving.FunctionsAsSpec | src/firebase_functions/private/serving.py:90-107 | the spec succeeds exactly when every param lowers; it has the four top-level keys, spec version `v1alpha1`, the merged required APIs of all functions, the lowered params list, and under each function name the lowered endpoint of the last function with that name |
| Serving.ManifestTree | src/firebase_functions/private/serving.py:107-117 | the tree given to the YAML dump exists exactly when the spec does, and holds no sentinel |
| Options.SecretNames | src/firebase_functions/options.py:337-344 | each secret is bound by its name, whether given as text or as a `SecretParam` |
| Options.MergeScalars | src/firebase_functions/options.py:307-309 | an option is present when either side sets it; the local value wins, lowered |
| Options.MergeOptions | src/firebase_functions/options.py:298-348 | the merge raises `TypeError` exactly when the local `secrets` is the reset sentinel |
| Options.MergeScalarRule | src/firebase_functions/options.py:307-333 | a scalar takes the local value, else the global one; unset on both sides it is missing, or `RESET_VALUE` when resettable and external changes are not preserved |
| Options.MergeLabelsRule | src/firebase_functions/options.py:309-314 | labels merge key by key with the local side winning, and are `{}` when neither side has any |
| Options.PreserveKeepsUnset | src/firebase_functions/options.py:315-333 | with external changes preserved, nothing is reset: every present option was set on some side |
| Options.LocalSecretsByName | src/firebase_functions/options.py:335-344 | a non-empty local secrets list is bound by name, whatever the global list holds |
| Options.RegionList | src/firebase_functions/options.py:368-372 | a list region is kept, a single region becomes a one-element list, an unset one stays unset |
| Options.VpcSettings | src/firebase_functions/options.py:374-385 | VPC settings exist exactly for a string connector, with egress settings exactly when set |
| Options.SecretEnvs | src/firebase_functions/options.py:354-366 | one `{key: secret}` per listed secret, in order; anything else gives `[]` |
| Options.LabelsValue | src/firebase_functions/options.py:391 | the labels dict as a value, key for key |
| Options.Option | src/firebase_functions/options.py:353 | an option of the rebuilt class is the merged value, or unset when missing |
| Options.BaseEndpoint | src/firebase_functions/options.py:350-403 | the base endpoint exists exactly when the merge succeeds; each field, including max and min instances, concurrency, cpu and ingress settings, is the corresponding merged option, and no trigger is set |
| Options.GlobalCpuDefault | src/firebase_functions/options.py:1142-1180 | after `set_global_options()` with no cpu, a function without its own cpu runs on `gcf_gen1`; under the initial globals cpu is left out |
| Options.BareOption | src/firebase_functions/options.py:315-333 | merging two bare option sets resets every resettable option and leaves region and cpu out |
| Options.DefaultMerge | src/firebase_functions/options.py:298-348 | the merge of two bare option sets: region and cpu missing, memory and VPC connector reset, no labels, no secrets |
| Options.DefaultBaseEndpoint | src/firebase_functions/options.py:319-333 | a bare function: memory reset, region and cpu left out, labels `{}`, no secrets |
| Options.RateLimitsValue | src/firebase_functions/options.py:436-439 | the rate-limits record holds both limits, as given |
| Options.TaskRetryValue | src/firebase_functions/options.py:441-447 | the task retry record holds all five fields, as given |
| Options.TaskQueueEndpoint | src/firebase_functions/options.py:432-458 | only the task-queue trigger is added to the base endpoint; it holds the rate limits and retry config, each `None` when not given |
| Options.EventTrigger | src/firebase_functions/options.py:489-493 | the event trigger has event type, filters, and retry (`False` when unset) |
| Options.EventEndpoint | src/firebase_functions/options.py:482-501 | only the event trigger is added to the base endpoint |
| Options.PubSubEndpoint | src/firebase_functions/options.py:516-527 | the Pub/Sub trigger filters on the topic alone, with the message-published event type |
| Options.AlertFilters | src/firebase_functions/options.py:613-618 | the alert type is always a filter, the app id exactly when given |
| Options.AlertEndpoint | src/firebase_functions/options.py:609-627 | an alert event trigger with the alert-published event type and the alert filters |
| Options.AlertWrapperEndpointAsWritten | src/firebase_functions/options.py:642-650 | as written, the wrapper's endpoint is the bare-options base endpoint with retry `False`, whatever the function declared |
| Options.AlertWrapperEndpoint | src/firebase_functions/options.py:642-650 | corrected, the wrapper's endpoint is the function's own alert endpoint |
| Options.AlertWrapperDropsOptions | src/firebase_functions/options.py:688-697 | a Crashlytics alert with a region and `retry=True` loses both as written and keeps both corrected |
| Options.EventarcEndpoint | src/firebase_functions/options.py:748-764 | the Eventarc trigger has the event type, the retry policy (`False` when unset), exactly the given filters as strings, and the channel (default `locations/us-central1/channels/firebase`) |
| Options.EventarcFilters | src/firebase_functions/options.py:752 | no filters give `{}`; given filters keep their keys and values |
| Options.ChannelTrigger | src/firebase_functions/options.py:761-763 | the custom event's trigger is the event trigger plus `channel`, the given one or the default Firebase channel |
| Options.AsDict | src/firebase_functions/options.py:524-527 | `dataclasses.asdict` leaves no dataclass instance behind, keeps a dict's keys, and turns a record into a dict |
| Options.ExprAsDict | src/firebase_functions/params.py:61-269 | a param or expression becomes the dict of its declared fields, recursively, with nothing deferred left |
| Options.AsDictFixesObjectFree | src/firebase_functions/options.py:524-527 | a value holding no dataclass instance passes `asdict` unchanged |
| Options.AsDictEventTrigger | src/firebase_functions/options.py:524-527 | `asdict` of an event trigger reaches only its retry and filter values |
| Options.PubSubEndpointAsWritten | src/firebase_functions/options.py:516-527 | as written, the Pub/Sub trigger holds `asdict` of the retry policy |
| Options.AlertEndpointAsWritten | src/firebase_functions/options.py:609-627 | as written, the alert trigger holds `asdict` of the retry policy and filters |
| Options.EventarcEndpointAsWritten | src/firebase_functions/options.py:748-764 | as written, the custom event trigger holds `asdict` of the retry policy, with the channel written in afterwards |
| Options.RetryParamDiscrepancy | src/firebase_functions/options.py:524-527 | a retry policy given as a param lowers to its template text in the corrected endpoints but to a dict of the param's fields as written, in all three |
| Options.AsWrittenAgrees | src/firebase_functions/options.py:524-527 | with a retry and alert type holding no dataclass instance, the as-written and corrected endpoints are equal |
| Options.ScheduleEndpoint | src/firebase_functions/options.py:817-843 | the schedule trigger has the schedule, the time zone (a `Timezone`'s key) and the retry record, which always has its five fields, each the configured value or `None` |
| Options.StorageEndpoint | src/firebase_functions/options.py:867-898 | the bucket is the function's own, else the configured one; with neither it is a `ValueError`; otherwise the trigger filters on the bucket with retry `False` |
| Options.PatternTrigger | src/firebase_functions/options.py:939-944 | the trigger with exact and path-pattern filters, retry `False` |
| Options.SplitFilter | src/firebase_functions/options.py:933-936 | a value is filed among the path patterns exactly when its pattern has wildcards |
| Options.DatabaseEndpoint | src/firebase_functions/options.py:922-954 | only the event trigger is added to the base endpoint, with both filter sets and retry `False` |
| Options.FirestoreEndpoint | src/firebase_functions/options.py:1036-1069 | only the event trigger is added to the base endpoint, with both filter sets and retry `False` |
| Options.DatabaseFilterSplit | src/firebase_functions/options.py:926-944 | `ref` (slashes stripped) is always a path pattern; the instance is a path pattern exactly when it has wildcards, an exact filter otherwise |
| Options.FirestoreFilterSplit | src/firebase_functions/options.py:1040-1059 | database and namespace default to `(default)`; the document is a path pattern exactly when it has wildcards |
| Options.BlockingEndpoint | src/firebase_functions/options.py:978-1000 | the blocking trigger has the event type and three token flags, each `False` when unset |
| Options.InvokerNames | src/firebase_functions/options.py:1117-1119 | a single invoker becomes a one-element list |
| Options.CheckInvokerAsWritten | src/firebase_functions/options.py:1116-1131 | as written, the invoker passes exactly when it has more than one entry, none empty, and neither `public` nor `private` |
| Options.CheckInvoker | src/firebase_functions/options.py:1116-1131 | corrected, the invoker passes exactly when it is non-empty with no empty entry, and `public`/`private` appear only alone |
| Options.InvokerCheckDiscrepancy | src/firebase_functions/options.py:1120-1130 | `invoker="public"` is refused as written and accepted corrected; the two agree on every list of two or more |
| Options.PublicHttpsFunction | src/firebase_functions/options.py:1101-1135 | an HTTPS function with `invoker="public"` fails as written; corrected, its trigger lists `["public"]` |
| Options.SingleInvokerRefused | src/firebase_functions/options.py:1101-1135 | as written, an HTTPS function with any single invoker fails, whatever its options |
| Options.SingleInvokerTrigger | src/firebase_functions/options.py:1101-1135 | corrected, an HTTPS function with one non-empty invoker, whose options merge, has exactly that one name as its trigger's invoker list |
| Options.HttpsEndpointAsWritten | src/firebase_functions/options.py:1101-1135 | as written, it succeeds exactly when the as-written invoker check passes, and then equals the corrected endpoint |
| Options.HttpsEndpoint | src/firebase_functions/options.py:1101-1135 | a callable function keeps the merged labels plus `deployment-callable: "true"` and gets a callable trigger; any other gets an HTTPS trigger whose only key is the invoker list, present exactly when given; nothing else differs from the base endpoint |
| Https.ErrorCodeMap | src/firebase_functions/https_fn.py:183-213 | every code maps to a status from the table, and status 200 belongs to `OK` alone |
| Https.ParseCode | src/firebase_functions/https_fn.py:38-138 | a parsed code has the given wire value |
| Https.FindCode | src/firebase_functions/https_fn.py:38-138 | the search finds one of the given codes with the wire value, or none of them has it |
| Https.ParseCodeRoundTrip | src/firebase_functions/https_fn.py:38-138 | parsing a code's wire value gives the code back, and a non-code string is refused |
| Https.CodesDistinct | src/firebase_functions/https_fn.py:147-213 | different codes have different wire values and different canonical names |
| Https.AsDict | src/firebase_functions/https_fn.py:269-280 | the wire form has status and message, plus details exactly when given |
| Https.FormatOnCallError | src/firebase_functions/https_fn.py:441-447 | an `HttpsError` is sent with its own status; any other exception as `INTERNAL`/500 |
| Https.OnCallBodiesDistinct | src/firebase_functions/https_fn.py:436-447 | a success body carries the result under `result` and no `error`, an error body carries `error` and no `result`, so the two never share a key |
| Https.HeaderEither | src/firebase_functions/https_fn.py:362 | the first header when set and non-empty, else the second |
| Https.ValidateHeaders | src/firebase_functions/https_fn.py:355-365 | only a POST whose content type starts with `application/json` passes; anything else is `Bad Request` |
| Https.ProcessBody | src/firebase_functions/https_fn.py:368-433 | a request is accepted exactly when headers, body and tokens pass (and the app token has `sub`); the request built carries the data, App Check and auth data, and the instance-ID token |
| Https.AppCheckEnforcement | src/firebase_functions/https_fn.py:402-406 | without enforcement a request lacking an App Check token is served; with it, it is refused as unauthenticated |
| Https.RefusalStatus | src/firebase_functions/https_fn.py:368-447 | every refusal reaches the client as 400, 401 or 500 |
| Https.AllowOrigin | src/firebase_functions/https_fn.py:459-461 | an unset or empty origin allows `*`; a list is joined with `, ` |
| Https.AllowMethods | src/firebase_functions/https_fn.py:463-465 | the handler's methods, else the configured ones, else `*` |
| Https.CorsHeaders | src/firebase_functions/https_fn.py:450-476 | no CORS options, no headers; otherwise the three allow headers, plus `Vary` and credentials exactly when the origin is not `*` |
| Https.EnforceAppCheck | src/firebase_functions/https_fn.py:652-658 | the function's own flag when set, else the global one, else off |
| Identity.InvalidClaims | src/firebase_functions/private/_identity_fn.py:257 | the reserved names present among the claims, exactly |
| Identity.InvalidFrom | src/firebase_functions/private/_identity_fn.py:257 | the reserved names from a position on that are present, exactly |
| Identity.Claims | src/firebase_functions/private/_identity_fn.py:246-247 | the claims dict under a key, `{}` when unset or `None` |
| Identity.RenamesAgree | src/firebase_functions/private/_identity_fn.py:299-314 | every renamed key maps back to its original |
| Identity.RenameFrom | src/firebase_functions/private/_identity_fn.py:299-314 | every output entry is a recognised key's value under its new name, and every present recognised key is output |
| Identity.CustomRefusal | src/firebase_functions/private/_identity_fn.py:256-271 | custom claims pass exactly when empty, or free of reserved names and within 1000 characters |
| Identity.SessionRefusal | src/firebase_functions/private/_identity_fn.py:273-297 | session claims pass exactly when free of reserved names and within 1000 characters, alone and combined with the custom claims |
| Identity.Refusal | src/firebase_functions/private/_identity_fn.py:249-297 | every refusal is an `INVALID_ARGUMENT` error |
| Identity.ValidateAuthResponse | src/firebase_functions/private/_identity_fn.py:239-315 | `None` is `{}`; a response is refused exactly when a check fails; an accepted one is renamed key for key |
| Identity.ReservedCustomClaimRefused | src/firebase_functions/private/_identity_fn.py:256-264 | a reserved custom claim is refused, whatever the event |
| Identity.SessionClaimsBeforeCreate | src/firebase_functions/private/_identity_fn.py:249-254 | session claims are refused on `before_create` |
| Identity.SignInRefusal | src/firebase_functions/private/_identity_fn.py:256-297 | on `before_sign_in`, a response is accepted exactly when both claim sets pass; on any other event, `before_create` without session claims included, exactly when the custom claims pass |
| Identity.RefusalOrder | src/firebase_functions/private/_identity_fn.py:249-297 | session claims on `before_create` are refused first, then the custom-claim checks, then the `before_sign_in` session checks, so a response failing two gets the earlier error |
| Identity.Keys | src/firebase_functions/private/_identity_fn.py:327 | the keys of the payload, in order |
| Identity.AsMap | src/firebase_functions/private/_identity_fn.py:330 | the payload as a dict keeps its keys |
| Identity.Without | src/firebase_functions/private/_identity_fn.py:325 | `pop` removes exactly the entries under the key |
| Identity.Lookup | src/firebase_functions/private/_identity_fn.py:325 | `pop(key, None)` yields the key's value, or `None` when absent |
| Identity.GenerateResponsePayload | src/firebase_functions/private/_identity_fn.py:318-335 | an empty response gives `{}`; a user record with `updateMask` exactly when fields other than the reCAPTCHA override remain; the override exactly when set |
| Identity.JoinNonEmpty | src/firebase_functions/private/_identity_fn.py:327-329 | a join of non-empty names is never empty |
| Identity.PayloadUserRecord | src/firebase_functions/private/_identity_fn.py:327-330 | with non-empty keys, the payload has a user record exactly when some key is not the reCAPTCHA override |
| Identity.PayloadOfValidated | src/firebase_functions/private/_identity_fn.py:299-335 | a validated response that only overrides reCAPTCHA sends no user record |
| Identity.ProviderId | src/firebase_functions/private/_identity_fn.py:166-170 | the provider is `password` exactly for `emailLink` or `password`, else the sign-in method, and `"None"` when there is none |
| Identity.Username | src/firebase_functions/private/_identity_fn.py:151-164 | the username is GitHub's `login` or Twitter's `screen_name` from a non-empty profile, else `None` |
| Identity.FactorId | src/firebase_functions/private/_identity_fn.py:93 | `phone` when a phone number is set, else the stored factor id (`KeyError` when missing) |
| Identity.CredentialOf | src/firebase_functions/private/_identity_fn.py:183-214 | no credential material, no credential; otherwise it needs `sign_in_method`, carries the token fields, the sign-in attributes as claims and the OAuth token secret, and derives the provider id from the sign-in method |
| Identity.ProviderIdOf | src/firebase_functions/private/_identity_fn.py:199-203 | the credential's provider follows the same rule as the user info's, `"None"` for a `None` method; a number or boolean sign-in method is rendered as `str()` renders it |
| Db.Field | src/firebase_functions/db_fn.py:86-91 | indexing the payload succeeds exactly for a present key |
| Db.AfterView | src/firebase_functions/db_fn.py:93-94 | two dicts give the pruned deep merge; anything else gives the raw delta |
| Db.SelectData | src/firebase_functions/db_fn.py:85-98 | a deletion carries the old data, a creation the delta, a write or update the change; any other type the whole payload; each fails exactly on a missing key |
| Db.AfterViewEntries | src/firebase_functions/db_fn.py:93-94 | in the after view a `None` in the delta deletes, a scalar replaces, an untouched key keeps its pruned old value, and no `None` remains |
| Db.AfterViewAsWritten | src/firebase_functions/db_fn.py:93-94 | as written, the after view of two dicts raises exactly when the unguarded merge fails, and that error is an `AttributeError`; anything else gives the raw delta |
| Db.AfterViewAsWrittenAgrees | src/firebase_functions/private/util.py:80-88 | on a before and delta of compatible shape, the as-written after view is the corrected one |
| Db.AfterViewAsWrittenRaises | src/firebase_functions/private/util.py:80-88 | a scalar in the old data where the delta writes an object makes the as-written handler raise, while the corrected after view holds the object |
| Db.Params | src/firebase_functions/db_fn.py:101-104 | the params are the reference matches overridden by the instance matches, and exist exactly when both extractions succeed |
| Db.InstancePattern | src/firebase_functions/db_fn.py:149-150 | a given instance is used with its surrounding slashes stripped; without one the pattern is `*`, which has wildcards and binds no captures |
| Db.WildcardInstance | src/firebase_functions/db_fn.py:99-104 | a wildcard instance is a path-pattern filter and binds no parameters |
| Db.DefaultInstance | src/firebase_functions/db_fn.py:145-150 | a function declared without an instance listens on every instance (`*` as a path pattern) and gets no instance parameters |
| Core.Init | src/firebase_functions/core.py:92-108 | `init` registers the callback and re-arms the hook |
| Core.Calls | src/firebase_functions/core.py:111-124 | over a run of wrapped calls the registered callback is kept, and every callback that runs is the registered one |
| Core.Call | src/firebase_functions/core.py:111-124 | a wrapped call runs the callback only while the flag is unset; a raising callback propagates its exception before the function runs and leaves the flag unset; otherwise the flag is set and the function's result returned |
| Core.InitRunsOnce | src/firebase_functions/core.py:92-124 | after `init(cb)`, a run of calls whose first callback run returns runs `cb` exactly once and sets the flag |
| Core.RaiseLeavesArmed | src/firebase_functions/core.py:111-124 | a raising callback reaches the caller, leaves the state as it was, and runs again on the next call |
| Core.AlwaysRaising | src/firebase_functions/core.py:111-124 | a callback that always raises runs on every call and the flag is never set |
| Core.RaisesThenReturns | src/firebase_functions/core.py:111-124 | a callback that raises `k` times and then returns runs `k + 1` times in all, and never again |
| Core.AlreadyInitialised | src/firebase_functions/core.py:119-124 | once the flag is set, calls run nothing and change nothing |
| Core.NoCallback | src/firebase_functions/core.py:119-122 | with no callback registered, nothing ever runs and the first call sets the flag |
| Core.ReInit | src/firebase_functions/core.py:102-108 | a second `init` re-arms the hook: the new callback runs once more and the old one does not |

## Left out

- Loading `main.py`, the admin Flask server, the YAML text itself, and
  logging. These are I/O; the model stops at the tree given to `yaml.dump`.
- Token verification (`verify_id_token`, `verify_token`). Its outcome is a
  parameter (`Util.CheckOutcome`). The `Bearer ` prefix test is not
  modelled either.
- `json.dumps`. The length of a JSON rendering is a parameter of
  `Identity.ValidateAuthResponse`.
- JSON parsing of a request body. The body is given already parsed, as a
  JSON object or as none. A body that parses to something other than an
  object is not modelled there; `Util.ValidBody` covers those shapes.
- `firebase_config()` reads the environment, so the configured storage
  bucket is a parameter of `Options.StorageEndpoint`.
- Datetime parsing (`timestamp_conversion` and friends). Only the
  precision classifier is modelled.
- `FloatParam` and list params. Float parsing and formatting are not
  modelled.
- Regular-expression CORS origins. Origins are strings or lists of
  strings.
- The `invoker` option of task queues. `TaskQueueOptions._endpoint` never
  reads it.
- The warning `init` logs when it is called twice.
- `HttpsOptions` drops `cors` from the merged dict. `cors` is not among
  the modelled runtime options, so nothing is lost by leaving that out.
- Case handling is ASCII only: `lower()` and `capitalize()` act on ASCII
  letters. Whitespace is Python's full `str.isspace` set, Unicode
  separators included.
- Identity.Refusal: the before-create session-claims message omits the
  list of claim names. Its own contract states only the error code; the
  order of the checks is stated by `RefusalOrder`.
- Options.MergeOptions: states only when the merge fails. The result is
  described by the lemmas `MergeScalarRule`, `MergeLabelsRule`,
  `PreserveKeepsUnset` and `LocalSecretsByName`.
- Options.DatabaseEndpoint and Options.FirestoreEndpoint: their own
  contracts state the trigger's keys. Where each filter goes is stated
  by `DatabaseFilterSplit` and `FirestoreFilterSplit`.
- PathPattern.ExtractMatchesBinds: states the bindings only for
  well-formed patterns and paths. These have at most one `**` segment,
  the path has enough parts, and no two captures share a name. When two
  captures share a name, Python keeps the later binding
  (`path_pattern.py:177-182`); that case is covered only by
  `ExtractMatches`'s key-set and `IndexError` contract, as are the other
  ill-formed inputs.
- Building the `AuthBlockingEvent`, `AuthUserRecord` and metadata objects.
  These are field copies, plus timestamps from the clock; only the choices
  they make are modelled (provider, username, new-user flag, factor id,
  credential).
- Db.AfterView: uses the corrected `Util.DeepMerge`, so a scalar in the
  old data under a key the delta writes an object to yields the object.
  The handler as written raises there; `Db.AfterViewAsWritten` models
  that, and the Findings table records it.
- Db.SelectData: builds the change from the corrected after view, as
  `Db.AfterView` does. It also does not model aliasing. `deep_merge`
  copies only the top level of `before`, and `prune_nones` then deletes
  `None` entries in place, so nested `None` values also vanish from the
  `before` side of the change. The model's `before` is the payload's
  data, untouched.
- Db.AfterViewAsWritten: every failure is reported as `AttributeError`.
  Python raises `TypeError` instead when a non-dict value is stored into
  a list.
- Params.ParamValue: `int()` is modelled on ASCII digits. Python also
  accepts other Unicode decimal digits and refuses literals of more than
  4300 digits; neither is modelled (`Strings.ParseInt`).
- Strings.ParseInt: states that blank text fails and that every failure
  is a `ValueError`. Which texts parse is stated by `ParseIntSpaces`,
  `ParseIntGrouped`, `ParseIntBadUnderscores`, `LiteralNegative` and
  `ParseIntToString`.
- Identity.ProviderIdOf: a list or dict sign-in method would be rendered
  by `str()` as its `repr`, which is not modelled; the model gives the
  placeholder `<object>`. Strings, numbers and booleans are rendered as
  Python renders them.
- Core.Call: concurrency is not modelled. Two first calls racing on
  different threads can both run the callback before either sets the
  flag; the model's calls are sequential.
- Options.PubSubEndpointAsWritten, Options.AlertEndpointAsWritten and
  Options.EventarcEndpointAsWritten: the second `asdict` is applied to
  the event trigger only. Every other field of the endpoint has already
  been lowered by the first `asdict` and holds no dataclass instance, so
  the second pass leaves it unchanged. An input object outside the three
  input classes is rendered as `{}` (`Options.InputAsDict`).
- `Member` truthiness: an enum member counts as truthy, as Python's
  default `Enum` does.

## Findings

| source | as written | input that shows it | evidently intended | confidence | as-written member | corrected member |
|---|---|---|---|---|---|---|
| src/firebase_functions/options.py:1120-1122 | the invoker check asserts `len(invoker) > 1`, so a single invoker, including `invoker="public"`, fails with an `AssertionError` | `HttpsOptions(invoker="public")._endpoint(func_name="f")` | a non-empty invoker list, as the assertion message says, with `public`/`private` allowed alone | high, not executed | Options.CheckInvokerAsWritten, Options.HttpsEndpointAsWritten (shown by Options.InvokerCheckDiscrepancy, Options.PublicHttpsFunction) | Options.CheckInvoker, Options.HttpsEndpoint |
| src/firebase_functions/options.py:642-650 | the App Distribution, Performance, Crashlytics and Billing options build a fresh `FirebaseAlertOptions` holding only the alert type and app id, so the function's own region, memory, retry and other options never reach the endpoint | `CrashlyticsOptions(region="europe-west1", retry=True)._endpoint(...)` deploys with no region and `retry=False` | the function's own options carried into the alert endpoint | medium, not executed | Options.AlertWrapperEndpointAsWritten (shown by Options.AlertWrapperDropsOptions) | Options.AlertWrapperEndpoint |
| src/firebase_functions/private/util.py:80-88 | `deep_merge` recurses into `result.get(key, {})`, which fails with `AttributeError` when the first dict holds a scalar where the second holds a dict | `deep_merge({"a": 1}, {"a": {"b": 2}})`, as in a database write that replaces a value with an object | the dict replaces the scalar, yielding `{"a": {"b": 2}}` | medium, not executed | Util.MergeAsWritten, Db.AfterViewAsWritten (shown by Util.DeepMergeScalarThenDict, Db.AfterViewAsWrittenRaises) | Util.DeepMerge, Db.AfterView |
| src/firebase_functions/options.py:524-527 | the Pub/Sub endpoint passes the event endpoint through `dataclasses.asdict` a second time; the retry policy is still the raw option there, so a param or expression given as `retry` becomes the dict of its dataclass fields | `PubSubOptions(topic="t", retry=BoolParam("R"))._endpoint(func_name="f")` puts `{name: R, default: None, ...}` in the trigger's `retry` | the expression kept, so that it lowers to its template text `{{ params.R }}`, as every other endpoint does | medium, not executed | Options.PubSubEndpointAsWritten (shown by Options.RetryParamDiscrepancy) | Options.PubSubEndpoint |
| src/firebase_functions/options.py:622-627 | the alert endpoint passes the event endpoint through `dataclasses.asdict` a second time; the retry policy is still the raw option there, so a param or expression given as `retry` becomes the dict of its dataclass fields | `FirebaseAlertOptions(alert_type=..., retry=BoolParam("R"))._endpoint(func_name="f")` puts `{name: R, default: None, ...}` in the trigger's `retry` | the expression kept, so that it lowers to its template text `{{ params.R }}`, as every other endpoint does | medium, not executed | Options.AlertEndpointAsWritten (shown by Options.RetryParamDiscrepancy) | Options.AlertEndpoint |
| src/firebase_functions/options.py:753-759 | the custom event endpoint passes the event endpoint through `dataclasses.asdict` a second time; the retry policy is still the raw option there, so a param or expression given as `retry` becomes the dict of its dataclass fields | `EventarcTriggerOptions(event_type="e", retry=BoolParam("R"))._endpoint(func_name="f")` puts `{name: R, default: None, ...}` in the trigger's `retry` | the expression kept, so that it lowers to its template text `{{ params.R }}`, as every other endpoint does | medium, not executed | Options.EventarcEndpointAsWritten (shown by Options.RetryParamDiscrepancy) | Options.EventarcEndpoint |
