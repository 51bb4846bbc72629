/** Eventarc path patterns (`private/path_pattern.py`): a slash template
    split into literal, single-capture and multi-capture segments, and the
    extraction of the named captures from a concrete path. */
module PathPattern {
  import opened Wrappers
  import opened Strings

  // ---------------------------------------------------------------------
  // Path helpers

  /** `path_parts`: no parts for `None`, `""` or `"/"`; otherwise the path
      with its outer slashes stripped, split on `/`. */
  function PathParts(path: Option<string>): (parts: seq<string>)
    ensures path.None? || path == Some("") || path == Some("/") ==> parts == []
    ensures forall i | 0 <= i < |parts| :: '/' !in parts[i]
  {
    if path.None? || path.value == "" || path.value == "/" then []
    else Split(Strip(path.value, '/'), '/')
  }

  /** A path whose parts are all non-empty and slash-free. */
  predicate CleanParts(parts: seq<string>)
  {
    forall i | 0 <= i < |parts| :: |parts[i]| > 0 && '/' !in parts[i]
  }

  /** `join_path`: the parts of both paths joined by single slashes. */
  function JoinPath(base: Option<string>, child: Option<string>): string
  {
    Join(PathParts(base) + PathParts(child), "/")
  }

  /** A join of non-empty slash-free parts neither starts nor ends with a
      slash. */
  lemma {:induction false} JoinCleanEnds(parts: seq<string>)
    requires |parts| >= 1 && CleanParts(parts)
    ensures var s := Join(parts, "/"); |s| > 0 && s[0] != '/' && s[|s| - 1] != '/'
  {
    if |parts| > 1 {
      JoinCleanEnds(parts[1..]);
      var tail := Join(parts[1..], "/");
      assert Join(parts, "/") == parts[0] + "/" + tail;
      assert parts[0][0] in parts[0];
    } else {
      assert parts[0][0] in parts[0] && parts[0][|parts[0]| - 1] in parts[0];
    }
  }

  /** A join of non-empty slash-free parts splits back into them. */
  lemma PathPartsOfClean(parts: seq<string>)
    requires |parts| >= 1 && CleanParts(parts)
    ensures PathParts(Some(Join(parts, "/"))) == parts
  {
    var s := Join(parts, "/");
    JoinCleanEnds(parts);
    assert Strip(s, '/') == s by {
      assert Repeat('/', 0) + s + Repeat('/', 0) == s;
      StripPadding(s, '/', 0, 0);
    }
    SplitJoin(parts, '/');
  }

  /** The parts of a joined path are the parts it was joined from, when none
      of them is empty. */
  lemma PathPartsOfJoin(base: Option<string>, child: Option<string>)
    requires CleanParts(PathParts(base) + PathParts(child))
    ensures PathParts(Some(JoinPath(base, child))) == PathParts(base) + PathParts(child)
  {
    var parts := PathParts(base) + PathParts(child);
    if |parts| == 0 {
      assert Join(parts, "/") == "";
    } else {
      PathPartsOfClean(parts);
    }
  }

  /** `trim_param`: the text between the outer braces, up to the first
      `=`. */
  function TrimParam(param: string): (r: string)
    ensures '=' !in r
  {
    var inner := if |param| < 2 then "" else param[1..|param| - 1];
    if '=' in inner then inner[..FirstIndex(inner, '=')] else inner
  }

  lemma TrimParamPlain(name: string)
    requires '=' !in name
    ensures TrimParam("{" + name + "}") == name
  {
    var p := "{" + name + "}";
    assert p[1..|p| - 1] == name;
  }

  lemma TrimParamWithPattern(name: string, pattern: string)
    requires '=' !in name
    ensures TrimParam("{" + name + "=" + pattern + "}") == name
  {
    var p := "{" + name + "=" + pattern + "}";
    var inner := p[1..|p| - 1];
    assert inner == name + "=" + pattern;
    assert inner[|name|] == '=';
    assert inner[..|name|] == name;
    FirstIndexUnique(inner, '=', |name|);
  }

  // ---------------------------------------------------------------------
  // Capture detection: `re.findall(r"{[^/{}]+}", part)`

  predicate CaptureChar(ch: char)
  {
    ch != '/' && ch != '{' && ch != '}'
  }

  /** Length of the longest prefix of `s` made of capture characters. */
  function CaptureRun(s: string): (n: nat)
    ensures n <= |s|
    ensures forall i | 0 <= i < n :: CaptureChar(s[i])
    ensures n < |s| ==> !CaptureChar(s[n])
  {
    if |s| > 0 && CaptureChar(s[0]) then 1 + CaptureRun(s[1..]) else 0
  }

  /** A `{...}` capture starts at the beginning of `s`, of length `len`. */
  predicate CaptureAt(s: string, len: nat)
  {
    |s| > 0 && s[0] == '{' && len == CaptureRun(s[1..]) + 2 && len <= |s|
    && CaptureRun(s[1..]) >= 1 && s[len - 1] == '}'
  }

  /** The number of non-overlapping left-to-right matches of `{[^/{}]+}`.
      The character class excludes `}`, so a match is fixed by where it
      starts. */
  function CaptureCount(s: string): nat
    decreases |s|
  {
    if |s| == 0 then 0
    else if s[0] == '{' && CaptureAt(s, CaptureRun(s[1..]) + 2) then
      1 + CaptureCount(s[CaptureRun(s[1..]) + 2..])
    else
      CaptureCount(s[1..])
  }

  /** A brace-free prefix contributes no capture. */
  lemma {:induction false} CaptureCountSkip(x: string, y: string)
    requires '{' !in x
    ensures CaptureCount(x + y) == CaptureCount(y)
    decreases |x|
  {
    if |x| > 0 {
      assert (x + y)[1..] == x[1..] + y;
      assert x[0] in x;
      assert forall ch | ch in x[1..] :: ch in x;
      CaptureCountSkip(x[1..], y);
    } else {
      assert x + y == y;
    }
  }

  // ---------------------------------------------------------------------
  // Segments

  /** `Segment`, `SingleCaptureSegment`, `MultiCaptureSegment`, each with
      the text of its part. */
  datatype Segment =
    | Literal(value: string)
    | SingleCapture(value: string)
    | MultiCapture(value: string)
  {
    /** `trimmed`: the capture name for captures, the text for literals. */
    function Trimmed(): string
    {
      if Literal? then value else TrimParam(value)
    }

    predicate IsCapture()
    {
      !Literal?
    }

    predicate IsMultiWildcard()
    {
      match this
      case Literal(v) => Contains(v, "**")
      case SingleCapture(_) => false
      case MultiCapture(_) => true
    }

    predicate IsSingleWildcard()
    {
      match this
      case Literal(v) => '*' in v && !Contains(v, "**")
      case SingleCapture(_) => true
      case MultiCapture(_) => false
    }
  }

  /** One step of `init_path_segments`: exactly one capture makes a capture
      segment, multi-segment when the part holds `**`; anything else is a
      literal. */
  function Classify(part: string): (seg: Segment)
    ensures seg.value == part
    ensures seg.IsCapture() <==> CaptureCount(part) == 1
    ensures seg.MultiCapture? <==> CaptureCount(part) == 1 && Contains(part, "**")
  {
    if CaptureCount(part) == 1 then
      if Contains(part, "**") then MultiCapture(part) else SingleCapture(part)
    else
      Literal(part)
  }

  /** `PathPattern`: the raw path without outer slashes and its segments. */
  datatype PathPattern = PathPattern(raw: string, segments: seq<Segment>)
  {
    /** `has_wildcards`. */
    predicate HasWildcards()
    {
      exists i | 0 <= i < |segments| ::
        segments[i].IsSingleWildcard() || segments[i].IsMultiWildcard()
    }

    /** `has_captures`. */
    predicate HasCaptures()
    {
      exists i | 0 <= i < |segments| :: segments[i].IsCapture()
    }
  }

  /** `PathPattern(raw_path)`: one segment per `/`-separated part of the
      stripped path, classified on its own. */
  function Parse(rawPath: string): (p: PathPattern)
    ensures p.raw == Strip(rawPath, '/')
    ensures |p.segments| == |Split(p.raw, '/')|
    ensures forall i | 0 <= i < |p.segments| :: p.segments[i] == Classify(Split(p.raw, '/')[i])
  {
    var raw := Strip(rawPath, '/');
    var parts := Split(raw, '/');
    PathPattern(raw, seq(|parts|, i requires 0 <= i < |parts| => Classify(parts[i])))
  }

  /** The segments' texts join back into the normalized path. */
  lemma ParseRoundTrip(rawPath: string)
    ensures var p := Parse(rawPath);
            Join(seq(|p.segments|, i requires 0 <= i < |p.segments| => p.segments[i].value), "/") == p.raw
  {
    var p := Parse(rawPath);
    var values := seq(|p.segments|, i requires 0 <= i < |p.segments| => p.segments[i].value);
    assert values == Split(p.raw, '/');
    JoinSplit(p.raw, '/');
  }

  /** The empty pattern is one empty literal, unlike `path_parts("")`. */
  lemma ParseEmpty()
    ensures Parse("") == PathPattern("", [Literal("")])
    ensures Parse("/") == PathPattern("", [Literal("")])
  {
    assert Split("", '/') == [""];
    assert CaptureCount("") == 0;
  }

  // ---------------------------------------------------------------------
  // Extracting captures

  /** Python `xs[i]`: negative indices count from the end. */
  function PyIndex(xs: seq<string>, i: int): (r: Result<string, PyError>)
    ensures 0 <= i < |xs| ==> r == Ok(xs[i])
    ensures -|xs| <= i < 0 ==> r == Ok(xs[|xs| + i])
    ensures r.Err? <==> i < -|xs| || i >= |xs|
    ensures r.Err? ==> r.error == IndexError
  {
    if 0 <= i < |xs| then Ok(xs[i])
    else if -|xs| <= i < 0 then Ok(xs[|xs| + i])
    else Err(IndexError)
  }

  /** A Python slice bound: negative counts from the end, then clamped. */
  function SliceBound(n: nat, i: int): (b: nat)
    ensures b <= n
    ensures 0 <= i <= n ==> b == i
  {
    if i < 0 then (if i + n < 0 then 0 else i + n)
    else if i > n then n
    else i
  }

  /** Python `xs[a:b]`: never raises. */
  function PySlice(xs: seq<string>, a: int, b: int): (r: seq<string>)
    ensures 0 <= a <= b <= |xs| ==> r == xs[a..b]
    ensures |r| <= |xs|
  {
    var lo := SliceBound(|xs|, a);
    var hi := SliceBound(|xs|, b);
    if lo >= hi then [] else xs[lo..hi]
  }

  /** What segment `seg` adds to the matches when the walk is at path index
      `from` and the segment's end would be `to`. */
  function Bind(seg: Segment, ps: seq<string>, from: int, to: int, acc: map<string, string>)
    : (r: Result<map<string, string>, PyError>)
    ensures seg.Literal? ==> r == Ok(acc)
    ensures seg.SingleCapture? ==>
              r == match PyIndex(ps, from) case Ok(v) => Ok(acc[seg.Trimmed() := v]) case Err(e) => Err(e)
    ensures seg.MultiCapture? ==> r == Ok(acc[seg.Trimmed() := Join(PySlice(ps, from, to), "/")])
  {
    match seg
    case Literal(_) => Ok(acc)
    case SingleCapture(_) =>
      var v :- PyIndex(ps, from);
      Ok(acc[seg.Trimmed() := v])
    case MultiCapture(_) =>
      Ok(acc[seg.Trimmed() := Join(PySlice(ps, from, to), "/")])
  }

  /** The names of the capture segments among `segs[lo..hi]`. */
  function CaptureNames(segs: seq<Segment>, lo: nat, hi: nat): set<string>
    requires lo <= hi <= |segs|
  {
    set i | lo <= i < hi && segs[i].IsCapture() :: segs[i].Trimmed()
  }

  /** The loop of `extract_matches` from segment `k` on, at path index
      `pathNdx`. */
  function Walk(segs: seq<Segment>, ps: seq<string>, k: nat, pathNdx: int, acc: map<string, string>)
    : (r: Result<map<string, string>, PyError>)
    requires k <= |segs|
    ensures r.Ok? ==> r.value.Keys == acc.Keys + CaptureNames(segs, k, |segs|)
    ensures r.Err? ==> r.error == IndexError
    decreases |segs| - k
  {
    if k == |segs| then Ok(acc)
    else
      var seg := segs[k];
      var next := |ps| - (|segs| - 1 - k);
      var acc' :- Bind(seg, ps, pathNdx, next, acc);
      var r := Walk(segs, ps, k + 1, if seg.IsMultiWildcard() then next else pathNdx + 1, acc');
      CaptureNamesStep(segs, k);
      r
  }

  /** The capture names from `k` on are those from `k + 1` on, plus the
      name of segment `k` when it is a capture. */
  lemma CaptureNamesStep(segs: seq<Segment>, k: nat)
    requires k < |segs|
    ensures CaptureNames(segs, k, |segs|)
            == CaptureNames(segs, k + 1, |segs|) + (if segs[k].IsCapture() then {segs[k].Trimmed()} else {})
  {
  }

  /** `extract_matches`: nothing for a pattern without captures, otherwise
      the walk over the segments from path index 0. */
  function ExtractMatches(p: PathPattern, path: Option<string>): (r: Result<map<string, string>, PyError>)
    ensures !p.HasCaptures() ==> r == Ok(map[])
    ensures r.Ok? ==> r.value.Keys == CaptureNames(p.segments, 0, |p.segments|)
    ensures r.Err? ==> r.error == IndexError
  {
    if !p.HasCaptures() then Ok(map[])
    else Walk(p.segments, PathParts(path), 0, 0, map[])
  }

  // ---------------------------------------------------------------------
  // What the walk binds

  /** The number of multi-segment wildcards among `segs[..i]`. */
  function Multis(segs: seq<Segment>, i: nat): nat
    requires i <= |segs|
  {
    if i == 0 then 0 else Multis(segs, i - 1) + (if segs[i - 1].IsMultiWildcard() then 1 else 0)
  }

  lemma {:induction false} MultisBounds(segs: seq<Segment>, i: nat, j: nat)
    requires i <= j <= |segs|
    ensures Multis(segs, i) <= Multis(segs, j) <= Multis(segs, i) + (j - i)
    decreases j
  {
    if i < j {
      MultisBounds(segs, i, j - 1);
    }
  }

  /** The path index the walk has reached at segment `i`: `i` before any
      multi-segment wildcard, and counted back from the end of the path
      after one. */
  function PathIndex(segs: seq<Segment>, ps: seq<string>, i: nat): int
    requires i <= |segs|
  {
    if Multis(segs, i) == 0 then i else |ps| - (|segs| - i)
  }

  /** The patterns the binding lemma speaks about: at most one `**`
      segment, no two captures with the same name, and a path with a part
      for every segment other than the `**` one. */
  predicate WellFormed(segs: seq<Segment>, ps: seq<string>)
  {
    && Multis(segs, |segs|) <= 1
    && |ps| + Multis(segs, |segs|) >= |segs|
    && forall i, j | 0 <= i < j < |segs| && segs[i].IsCapture() && segs[j].IsCapture() ::
         segs[i].Trimmed() != segs[j].Trimmed()
  }

  lemma IndexFacts(segs: seq<Segment>, ps: seq<string>, i: nat)
    requires WellFormed(segs, ps) && i < |segs|
    ensures !segs[i].IsMultiWildcard() ==> 0 <= PathIndex(segs, ps, i) < |ps|
    ensures segs[i].IsMultiWildcard() ==>
              PathIndex(segs, ps, i) == i && i <= |ps| - (|segs| - 1 - i) <= |ps|
  {
    MultisBounds(segs, i + 1, |segs|);
    MultisBounds(segs, 0, i);
  }

  /** The value the capture at segment `i` binds: its own path part for a
      single capture, and for the multi capture the parts from its position
      up to those left for the segments after it, joined by `/`. */
  function Binding(segs: seq<Segment>, ps: seq<string>, i: nat): string
    requires WellFormed(segs, ps) && i < |segs| && segs[i].IsCapture()
  {
    IndexFacts(segs, ps, i);
    if segs[i].SingleCapture? then ps[PathIndex(segs, ps, i)]
    else Join(ps[i..|ps| - (|segs| - 1 - i)], "/")
  }

  /** One step of the walk binds the segment's own value. */
  lemma BindStep(segs: seq<Segment>, ps: seq<string>, k: nat, acc: map<string, string>)
    returns (acc': map<string, string>)
    requires WellFormed(segs, ps) && k < |segs|
    ensures Bind(segs[k], ps, PathIndex(segs, ps, k), |ps| - (|segs| - 1 - k), acc) == Ok(acc')
    ensures acc' == if segs[k].IsCapture() then acc[segs[k].Trimmed() := Binding(segs, ps, k)] else acc
  {
    var seg := segs[k];
    var from, to := PathIndex(segs, ps, k), |ps| - (|segs| - 1 - k);
    IndexFacts(segs, ps, k);
    if seg.SingleCapture? {
      assert Binding(segs, ps, k) == ps[from];
      acc' := acc[seg.Trimmed() := ps[from]];
      BindSingle(seg, ps, from, to, acc);
    } else if seg.MultiCapture? {
      assert from == k;
      assert Binding(segs, ps, k) == Join(ps[from..to], "/");
      acc' := acc[seg.Trimmed() := Join(ps[from..to], "/")];
      BindMulti(seg, ps, from, to, acc);
    } else {
      acc' := acc;
    }
  }

  /** A single capture at an index inside the path binds that part. */
  lemma BindSingle(seg: Segment, ps: seq<string>, from: int, to: int, acc: map<string, string>)
    requires seg.SingleCapture? && 0 <= from < |ps|
    ensures Bind(seg, ps, from, to, acc) == Ok(acc[seg.Trimmed() := ps[from]])
  {
    assert PyIndex(ps, from) == Ok(ps[from]);
  }

  /** A multi capture over an in-range run binds that run joined by `/`. */
  lemma BindMulti(seg: Segment, ps: seq<string>, from: int, to: int, acc: map<string, string>)
    requires seg.MultiCapture? && 0 <= from <= to <= |ps|
    ensures Bind(seg, ps, from, to, acc) == Ok(acc[seg.Trimmed() := Join(ps[from..to], "/")])
  {
    assert PySlice(ps, from, to) == ps[from..to];
  }

  /** The walk's path index moves on by one, or jumps to the parts left
      for the segments after a `**`. */
  lemma PathIndexStep(segs: seq<Segment>, ps: seq<string>, k: nat)
    requires WellFormed(segs, ps) && k < |segs|
    ensures PathIndex(segs, ps, k + 1)
            == if segs[k].IsMultiWildcard() then |ps| - (|segs| - 1 - k) else PathIndex(segs, ps, k) + 1
  {
    MultisBounds(segs, k + 1, |segs|);
  }

  /** Every capture among the first `n` segments is bound in `m` to its
      own value. */
  predicate BoundUpTo(segs: seq<Segment>, ps: seq<string>, n: nat, m: map<string, string>)
    requires WellFormed(segs, ps) && n <= |segs|
  {
    forall i | 0 <= i < n :: BoundAt(segs, ps, i, m)
  }

  /** The capture at segment `i`, if it is one, is bound in `m` to its own
      value. */
  predicate BoundAt(segs: seq<Segment>, ps: seq<string>, i: nat, m: map<string, string>)
    requires WellFormed(segs, ps) && i < |segs|
  {
    segs[i].IsCapture() ==> segs[i].Trimmed() in m && m[segs[i].Trimmed()] == Binding(segs, ps, i)
  }

  /** Binding segment `k` keeps the bindings of the segments before it. */
  lemma BindingsExtend(segs: seq<Segment>, ps: seq<string>, k: nat, acc: map<string, string>,
                       acc': map<string, string>)
    requires WellFormed(segs, ps) && k < |segs|
    requires BoundUpTo(segs, ps, k, acc)
    requires acc' == if segs[k].IsCapture() then acc[segs[k].Trimmed() := Binding(segs, ps, k)] else acc
    ensures BoundUpTo(segs, ps, k + 1, acc')
  {
    forall i | 0 <= i < k + 1 ensures BoundAt(segs, ps, i, acc') {
      if i < k {
        assert BoundAt(segs, ps, i, acc);
        if segs[k].IsCapture() && segs[i].IsCapture() {
          assert segs[i].Trimmed() != segs[k].Trimmed();
        }
      }
    }
  }

  /** One step of the walk, once the segment has bound: the loop carries
      on from the next segment, at the next path index. */
  lemma WalkUnfold(segs: seq<Segment>, ps: seq<string>, k: nat, pathNdx: int, nextNdx: int,
                   acc: map<string, string>, acc': map<string, string>)
    requires k < |segs|
    requires Bind(segs[k], ps, pathNdx, |ps| - (|segs| - 1 - k), acc) == Ok(acc')
    requires nextNdx == if segs[k].IsMultiWildcard() then |ps| - (|segs| - 1 - k) else pathNdx + 1
    ensures Walk(segs, ps, k, pathNdx, acc) == Walk(segs, ps, k + 1, nextNdx, acc')
  {
  }

  lemma {:induction false} WalkBinds(segs: seq<Segment>, ps: seq<string>, k: nat, pathNdx: int,
                                     acc: map<string, string>)
    returns (m: map<string, string>)
    requires WellFormed(segs, ps) && k <= |segs| && pathNdx == PathIndex(segs, ps, k)
    requires BoundUpTo(segs, ps, k, acc)
    ensures Walk(segs, ps, k, pathNdx, acc) == Ok(m)
    ensures BoundUpTo(segs, ps, |segs|, m)
    decreases |segs| - k
  {
    if k < |segs| {
      var acc' := BindStep(segs, ps, k, acc);
      var next := if segs[k].IsMultiWildcard() then |ps| - (|segs| - 1 - k) else pathNdx + 1;
      PathIndexStep(segs, ps, k);
      WalkUnfold(segs, ps, k, pathNdx, next, acc, acc');
      BindingsExtend(segs, ps, k, acc, acc');
      m := WalkBinds(segs, ps, k + 1, next, acc');
    } else {
      WalkEnd(segs, ps, k, pathNdx, acc);
      m := acc;
    }
  }

  /** Past the last segment the walk returns what it has bound. */
  lemma WalkEnd(segs: seq<Segment>, ps: seq<string>, k: nat, pathNdx: int, acc: map<string, string>)
    requires k == |segs|
    ensures Walk(segs, ps, k, pathNdx, acc) == Ok(acc)
  {
  }

  /** Without a `**` segment, every capture binds the path part at its own
      index. */
  lemma NoMultiBindsOwnIndex(segs: seq<Segment>, ps: seq<string>, i: nat)
    requires WellFormed(segs, ps) && Multis(segs, |segs|) == 0
    requires i < |segs| && segs[i].IsCapture()
    ensures segs[i].SingleCapture? && Binding(segs, ps, i) == ps[i]
  {
    MultisBounds(segs, i + 1, |segs|);
    assert Multis(segs, i + 1) == 0;
    assert !segs[i].IsMultiWildcard() && Multis(segs, i) == 0;
    assert PathIndex(segs, ps, i) == i;
  }

  /** On a well-formed pattern and path, every capture binds its own part,
      or for a `**` capture the run of parts it spans, and the matches hold
      exactly the capture names. */
  lemma ExtractMatchesBinds(p: PathPattern, path: Option<string>)
    requires WellFormed(p.segments, PathParts(path))
    ensures var r := ExtractMatches(p, path);
            r.Ok? && r.value.Keys == CaptureNames(p.segments, 0, |p.segments|)
            && forall i | 0 <= i < |p.segments| && p.segments[i].IsCapture() ::
                 r.value[p.segments[i].Trimmed()] == Binding(p.segments, PathParts(path), i)
  {
    if p.HasCaptures() {
      var segs, ps := p.segments, PathParts(path);
      var m := WalkBinds(segs, ps, 0, PathIndex(segs, ps, 0), map[]);
      forall i | 0 <= i < |segs| && segs[i].IsCapture() ensures m[segs[i].Trimmed()] == Binding(segs, ps, i) {
        assert BoundAt(segs, ps, i, m);
      }
    }
  }

  // ---------------------------------------------------------------------
  // Examples

  /** A braced run of capture characters is one capture. */
  lemma CaptureCountBraced(name: string, rest: string)
    requires CaptureName(name)
    ensures CaptureCount("{" + name + "}" + rest) == 1 + CaptureCount(rest)
  {
    var s := "{" + name + "}" + rest;
    assert s[1..] == name + "}" + rest;
    assert CaptureRun(s[1..]) == |name| by {
      var t := s[1..];
      assert forall i | 0 <= i < |name| :: t[i] == name[i];
      assert t[|name|] == '}';
    }
    assert s[|name| + 2..] == rest;
  }

  predicate CaptureName(name: string)
  {
    |name| > 0 && forall i | 0 <= i < |name| :: CaptureChar(name[i])
  }

  /** Three braced names separated by brace-free text count three times. */
  lemma CaptureCountThree(a: string, x: string, b: string, y: string, c: string)
    requires CaptureName(a) && CaptureName(b) && CaptureName(c)
    requires '{' !in x && '{' !in y
    ensures CaptureCount("{" + a + "}" + (x + ("{" + b + "}" + (y + ("{" + c + "}" + ""))))) == 3
  {
    var cc := "{" + c + "}" + "";
    var r2 := y + cc;
    var bb := "{" + b + "}" + r2;
    var r1 := x + bb;
    CaptureCountBraced(c, "");
    assert CaptureCount(cc) == 1;
    CaptureCountSkip(y, cc);
    CaptureCountBraced(b, r2);
    CaptureCountSkip(x, bb);
    CaptureCountBraced(a, r1);
  }

  /** A slash-free template is a pattern of one segment. */
  lemma SinglePartPattern(part: string)
    requires '/' !in part
    ensures Parse(part) == PathPattern(part, [Classify(part)])
  {
    assert Repeat('/', 0) + part + Repeat('/', 0) == part;
    if |part| > 0 {
      assert part[0] in part && part[|part| - 1] in part;
    }
    StripPadding(part, '/', 0, 0);
    assert Split(part, '/') == [part];
  }

  /** A slash-free part without exactly one capture is a single literal,
      and extracts nothing. */
  lemma LiteralPart(part: string, path: Option<string>)
    requires '/' !in part && CaptureCount(part) != 1
    ensures Parse(part).segments == [Literal(part)]
    ensures ExtractMatches(Parse(part), path) == Ok(map[])
  {
    SinglePartPattern(part);
    assert !Parse(part).segments[0].IsCapture();
  }

  /** A part holding three captures, such as `{a}-something-{b}-else-{c}`,
      is a literal, so nothing is extracted from any path. */
  lemma ThreeCapturesAreLiteral(a: string, x: string, b: string, y: string, c: string, path: Option<string>)
    requires CaptureName(a) && CaptureName(b) && CaptureName(c)
    requires '{' !in x && '{' !in y && '/' !in x && '/' !in y
    ensures var part := "{" + a + "}" + (x + ("{" + b + "}" + (y + ("{" + c + "}" + ""))));
            var p := Parse(part);
            p.segments == [Literal(part)] && ExtractMatches(p, path) == Ok(map[])
  {
    var part := "{" + a + "}" + (x + ("{" + b + "}" + (y + ("{" + c + "}" + ""))));
    CaptureCountThree(a, x, b, y, c);
    assert '/' !in part by {
      assert forall i | 0 <= i < |a| :: a[i] != '/';
      assert forall i | 0 <= i < |b| :: b[i] != '/';
      assert forall i | 0 <= i < |c| :: c[i] != '/';
    }
    LiteralPart(part, path);
  }

  /** Every capture is a wildcard, so a pattern with captures has
      wildcards. */
  lemma CapturesAreWildcards(p: PathPattern)
    requires p.HasCaptures()
    ensures p.HasWildcards()
  {
    var i :| 0 <= i < |p.segments| && p.segments[i].IsCapture();
    assert p.segments[i].IsSingleWildcard() || p.segments[i].IsMultiWildcard();
  }

  /** The bare `*` pattern (the default database instance) is a literal
      with a wildcard and no capture. */
  lemma StarPattern()
    ensures Parse("*").segments == [Literal("*")]
    ensures Parse("*").HasWildcards() && !Parse("*").HasCaptures()
  {
    assert "*" == "*" + "";
    CaptureCountSkip("*", "");
    assert !Contains("*", "**") by {
      assert !("**" <= "*");
      assert "*"[1..] == "";
    }
    LiteralPart("*", None);
    assert Parse("*").segments[0].IsSingleWildcard();
  }
}
