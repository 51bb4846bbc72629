/** Deferred parameters and CEL expressions (`params.py`): the text each
    expression renders to, deploy-time name validation, the registry of
    declared params, and the runtime resolution of a param or expression
    against the process environment, which is passed in as a map. */
module Params {
  import opened Wrappers
  import opened Strings

  /** The concrete param class; `BaseParam` is the bare `Param` base, whose
      value is not implemented. */
  datatype ParamType = StringType | IntType | BoolType | BaseParam

  /** A Python value that can sit beside an expression: a literal, or a
      nested expression. */
  datatype Operand =
    | Str(s: string)
    | Int(i: int)
    | Bool(b: bool)
    | Ref(expr: Expression)

  datatype SelectOption = SelectOption(value: Operand, labelText: Option<string>)

  /** How the CLI prompts for a param's value; `OtherInput` stands for any
      object that is none of the three input classes. */
  datatype ParamInput =
    | TextInput(example: Option<string>, validationRegex: Option<string>,
                validationErrorMessage: Option<string>)
    | ResourceInput(resourceType: string)
    | SelectInput(options: seq<SelectOption>)
    | OtherInput

  /** A `Param` subclass instance. `builtIn` marks the internal default
      string params, which skip validation and registration. */
  datatype Param = Param(
    paramType: ParamType,
    name: string,
    default: Option<Operand>,
    labelText: Option<string>,
    description: Option<string>,
    immutable: Option<bool>,
    input: Option<ParamInput>,
    builtIn: bool)

  datatype SecretParam = SecretParam(
    name: string,
    labelText: Option<string>,
    description: Option<string>,
    immutable: Option<bool>)

  /** Every expression the SDK builds. */
  datatype Expression =
    | ParamRef(param: Param)
    | SecretRef(secret: SecretParam)
    | Compare(comparator: string, left: Expression, right: Operand)
    | Ternary(test: Expression, ifTrue: Operand, ifFalse: Operand)

  const CelPrefix: string := "params."

  /** The CEL text of an expression. */
  function Cel(e: Expression): string
  {
    match e
    case ParamRef(p) => CelPrefix + p.name
    case SecretRef(s) => CelPrefix + s.name
    case Compare(op, l, r) => Cel(l) + " " + op + " " + Quote(r)
    case Ternary(t, a, b) => Cel(t) + " ? " + Quote(a) + " : " + Quote(b)
  }

  /** An operand as it appears inside CEL: strings double-quoted, nested
      expressions by their CEL, other literals by `str()`. */
  function Quote(o: Operand): string
  {
    match o
    case Str(s) => "\"" + s + "\""
    case Int(i) => IntToString(i)
    case Bool(b) => BoolText(b)
    case Ref(e) => Cel(e)
  }

  /** `str(expr)`: the CEL wrapped in template braces. */
  function Display(e: Expression): string
  {
    "{{ " + Cel(e) + " }}"
  }

  /** The CEL inside a `{{ … }}` template, if `s` is one. */
  function Unwrap(s: string): (r: Option<string>)
    ensures r.Some? ==> s == "{{ " + r.value + " }}"
  {
    if |s| >= 6 && s[..3] == "{{ " && s[|s| - 3..] == " }}" then
      Some(s[3..|s| - 3])
    else
      None
  }

  /** The template rendering can be undone: its inner text is the CEL. */
  lemma UnwrapDisplay(e: Expression)
    ensures Unwrap(Display(e)) == Some(Cel(e))
  {
    var d := Display(e);
    assert d[..3] == "{{ " && d[|d| - 3..] == " }}";
    assert d[3..|d| - 3] == Cel(e);
  }

  /** Two params render to the same reference exactly when their names are
      equal. */
  lemma ParamCelInjective(p: Param, q: Param)
    ensures Cel(ParamRef(p)) == Cel(ParamRef(q)) <==> p.name == q.name
  {
    if Cel(ParamRef(p)) == Cel(ParamRef(q)) {
      assert p.name == Cel(ParamRef(p))[|CelPrefix|..];
      assert q.name == Cel(ParamRef(q))[|CelPrefix|..];
    }
  }

  // ---------------------------------------------------------------------
  // Name validation and the registry

  predicate NameChar(ch: char)
  {
    'A' <= ch <= 'Z' || '0' <= ch <= '9' || ch == '_'
  }

  predicate NameChars(s: string)
  {
    forall i | 0 <= i < |s| :: NameChar(s[i])
  }

  /** `re.match(r"^[A-Z0-9_]+$", name)`: one or more name characters,
      where Python's `$` also admits one trailing newline. */
  predicate ValidName(name: string)
  {
    (|name| > 0 && NameChars(name))
    || (|name| > 1 && name[|name| - 1] == '\n' && NameChars(name[..|name| - 1]))
  }

  /** An entry of the module-level `_params` dict. */
  datatype Declared = Plain(param: Param) | Secret(secret: SecretParam)
  {
    function Name(): string
    {
      match this
      case Plain(p) => p.name
      case Secret(s) => s.name
    }

    function LabelText(): Option<string>
    {
      match this
      case Plain(p) => p.labelText
      case Secret(s) => s.labelText
    }

    function Description(): Option<string>
    {
      match this
      case Plain(p) => p.description
      case Secret(s) => s.description
    }

    function Immutable(): Option<bool>
    {
      match this
      case Plain(p) => p.immutable
      case Secret(s) => s.immutable
    }
  }

  /** The registry, in declaration order. */
  type Registry = seq<Declared>

  function Names(reg: Registry): (ns: seq<string>)
    ensures |ns| == |reg| && forall i | 0 <= i < |reg| :: ns[i] == reg[i].Name()
  {
    if |reg| == 0 then [] else Names(reg[..|reg| - 1]) + [reg[|reg| - 1].Name()]
  }

  predicate UniqueNames(reg: Registry)
  {
    forall i, j | 0 <= i < j < |reg| :: reg[i].Name() != reg[j].Name()
  }

  /** Registration shared by both param classes: validate, reject a
      duplicate, then append. */
  function Register(reg: Registry, d: Declared): (r: Result<Registry, PyError>)
    ensures r.Ok? <==> ValidName(d.Name()) && d.Name() !in Names(reg)
    ensures r.Ok? ==> r.value == reg + [d]
    ensures r.Err? ==> r.error.ValueError?
  {
    if !ValidName(d.Name()) then
      Err(ValueError("Parameter names must only use uppercase letters, numbers and underscores"))
    else if d.Name() in Names(reg) then
      Err(ValueError("Duplicate Parameter Error"))
    else
      Ok(reg + [d])
  }

  /** Constructing a `Param`: built-in params leave the registry alone. */
  function DeclareParam(reg: Registry, p: Param): (r: Result<Registry, PyError>)
    ensures p.builtIn ==> r == Ok(reg)
    ensures !p.builtIn ==> r == Register(reg, Plain(p))
  {
    if p.builtIn then Ok(reg) else Register(reg, Plain(p))
  }

  /** Constructing a `SecretParam`: unlike a `Param` there is no built-in
      exemption, so every secret is validated and registered. */
  function DeclareSecret(reg: Registry, s: SecretParam): (r: Result<Registry, PyError>)
    ensures r.Ok? <==> ValidName(s.name) && s.name !in Names(reg)
    ensures r.Ok? ==> r.value == reg + [Secret(s)] && Names(r.value) == Names(reg) + [s.name]
    ensures r.Err? ==> r.error.ValueError?
  {
    Register(reg, Secret(s))
  }

  /** Registration never lets two entries share a name. */
  lemma RegisterKeepsUnique(reg: Registry, d: Declared)
    requires UniqueNames(reg)
    requires Register(reg, d).Ok?
    ensures UniqueNames(Register(reg, d).value)
  {
    var r := Register(reg, d).value;
    forall i, j | 0 <= i < j < |r|
      ensures r[i].Name() != r[j].Name()
    {
      if j == |reg| {
        assert Names(reg)[i] == reg[i].Name();
      }
    }
  }

  /** Declaring the same name twice fails the second time. */
  lemma RedeclareFails(reg: Registry, d: Declared, e: Declared)
    requires Register(reg, d).Ok?
    requires e.Name() == d.Name()
    ensures Register(Register(reg, d).value, e) == Err(ValueError("Duplicate Parameter Error"))
  {
    var r := Register(reg, d).value;
    assert Names(r)[|reg|] == d.Name();
  }

  // ---------------------------------------------------------------------
  // Runtime values

  /** Python truthiness; expression objects are always truthy. */
  predicate Truthy(o: Operand)
  {
    match o
    case Str(s) => |s| > 0
    case Int(i) => i != 0
    case Bool(b) => b
    case Ref(_) => true
  }

  /** The numeric value of an `int` or `bool` (a Python `int` subclass). */
  function Numeric(o: Operand): Option<int>
  {
    match o
    case Int(i) => Some(i)
    case Bool(b) => Some(if b then 1 else 0)
    case _ => None
  }

  /** Python `==` across the operand kinds: `bool` and `int` compare as
      numbers, expressions by dataclass field equality, mixed kinds are
      unequal. */
  predicate PyEquals(a: Operand, b: Operand)
  {
    if Numeric(a).Some? && Numeric(b).Some? then Numeric(a).value == Numeric(b).value
    else if a.Str? && b.Str? then a.s == b.s
    else if a.Ref? && b.Ref? then a.expr == b.expr
    else false
  }

  predicate OrderComparator(op: string)
  {
    op == ">" || op == ">=" || op == "<" || op == "<="
  }

  /** Python's ordering operators: numbers against numbers, strings against
      strings, anything else raises `TypeError`. */
  function PyOrder(op: string, a: Operand, b: Operand): (r: Result<bool, PyError>)
    requires OrderComparator(op)
    ensures r.Err? <==> !((Numeric(a).Some? && Numeric(b).Some?) || (a.Str? && b.Str?))
  {
    if Numeric(a).Some? && Numeric(b).Some? then
      var x, y := Numeric(a).value, Numeric(b).value;
      Ok(if op == ">" then x > y else if op == ">=" then x >= y
         else if op == "<" then x < y else x <= y)
    else if a.Str? && b.Str? then
      Ok(if op == ">" then StrLess(b.s, a.s)
         else if op == ">=" then StrLess(b.s, a.s) || a.s == b.s
         else if op == "<" then StrLess(a.s, b.s)
         else StrLess(a.s, b.s) || a.s == b.s)
    else
      Err(TypeError)
  }

  /** `<` and `>=` are complements, and so are `>` and `<=`. */
  lemma OrderComplements(a: Operand, b: Operand)
    requires PyOrder("<", a, b).Ok?
    ensures PyOrder(">=", a, b) == Ok(!PyOrder("<", a, b).value)
    ensures PyOrder("<=", a, b) == Ok(!PyOrder(">", a, b).value)
  {
    if a.Str? && b.Str? && Numeric(a).None? {
      StrLessTrichotomy(a.s, b.s);
    }
  }

  /** `>` is `<` with the operands swapped. */
  lemma OrderConverse(a: Operand, b: Operand)
    requires PyOrder("<", a, b).Ok?
    ensures PyOrder(">", b, a) == PyOrder("<", a, b)
  {
  }

  /** The `.value` of a param given the environment `env`. */
  function ParamValue(p: Param, env: map<string, string>): (r: Result<Operand, PyError>)
    ensures p.paramType.BaseParam? ==> r.Err? && r.error.NotImplementedError?
    ensures p.paramType.StringType? && p.name in env ==> r == Ok(Str(env[p.name]))
    ensures p.paramType.BoolType? && p.name in env ==> r.Ok? && r.value.Bool?
    ensures p.paramType.IntType? && p.name in env ==> r == ParseInt(env[p.name]).MapOk(i => Int(i))
    ensures !p.paramType.BaseParam? && p.name !in env && p.default.Some? && !p.default.value.Ref?
            ==> r == Ok(p.default.value)
    ensures !p.paramType.BaseParam? && p.name !in env && p.default.Some? && p.default.value.Ref?
            ==> r == Value(p.default.value.expr, env)
    ensures p.name !in env && p.default.None? ==>
              && (p.paramType.StringType? ==> r == Ok(Str("")))
              && (p.paramType.IntType? ==> r == Ok(Int(0)))
              && (p.paramType.BoolType? ==> r == Ok(Bool(false)))
    decreases p, 0
  {
    if p.paramType.BaseParam? then Err(NotImplementedError(""))
    else if p.name in env then
      var text := env[p.name];
      match p.paramType
      case StringType => Ok(Str(text))
      case IntType => ParseInt(text).MapOk(i => Int(i))
      case BoolType => Ok(Bool(ToLower(text) == "true"))
    else if p.default.Some? then
      match p.default.value
      case Ref(d) => Value(d, env)
      case lit => Ok(lit)
    else
      match p.paramType
      case StringType => Ok(Str(""))
      case IntType => Ok(Int(0))
      case BoolType => Ok(Bool(false))
  }

  /** The `.value` of an expression given the environment `env`. A
      comparison always yields a bool, a secret always a string. */
  function Value(e: Expression, env: map<string, string>): (r: Result<Operand, PyError>)
    ensures e.SecretRef? ==> r == Ok(Str(if e.secret.name in env then env[e.secret.name] else ""))
    ensures e.Compare? && r.Ok? ==> r.value.Bool?
    ensures e.Compare? && Value(e.left, env).Err? ==> r == Err(Value(e.left, env).error)
    ensures e.Compare? && e.comparator == "==" && Value(e.left, env).Ok?
            ==> r == Ok(Bool(PyEquals(Value(e.left, env).value, e.right)))
    ensures e.Compare? && OrderComparator(e.comparator) && Value(e.left, env).Ok?
            ==> r == PyOrder(e.comparator, Value(e.left, env).value, e.right).MapOk(b => Bool(b))
    ensures e.Compare? && !OrderComparator(e.comparator) && e.comparator != "==" && Value(e.left, env).Ok?
            ==> r.Err? && r.error.ValueError?
    decreases e, 1
  {
    match e
    case ParamRef(p) => ParamValue(p, env)
    case SecretRef(s) => Ok(Str(if s.name in env then env[s.name] else ""))
    case Compare(op, l, right) =>
      var left :- Value(l, env);
      if op == "==" then Ok(Bool(PyEquals(left, right)))
      else if OrderComparator(op) then
        var b :- PyOrder(op, left, right);
        Ok(Bool(b))
      else Err(ValueError("Unknown comparator " + op))
    case Ternary(t, a, b) =>
      var test :- Value(t, env);
      Ok(if Truthy(test) then a else b)
  }

  /** An int param whose environment entry is a decimal rendering resolves
      to that number. */
  lemma IntParamFromEnv(p: Param, env: map<string, string>, i: int)
    requires p.paramType.IntType? && p.name in env && env[p.name] == IntToString(i)
    ensures ParamValue(p, env) == Ok(Int(i))
  {
    ParseIntToString(i);
  }

  /** A bool param's environment entry is read case-insensitively: it is
      true exactly for the spellings of "true". */
  lemma BoolParamFromEnv(p: Param, env: map<string, string>)
    requires p.paramType.BoolType? && p.name in env
    ensures ParamValue(p, env) == Ok(Bool(ToLower(env[p.name]) == "true"))
    ensures env[p.name] in {"true", "True", "TRUE"} ==> ParamValue(p, env) == Ok(Bool(true))
  {
  }

  /** With no environment entry and no default, each param class resolves
      to its type's zero value. */
  lemma ParamZeroValue(p: Param, env: map<string, string>)
    requires p.name !in env && p.default.None? && !p.paramType.BaseParam?
    ensures ParamValue(p, env).Ok?
    ensures !Truthy(ParamValue(p, env).value)
  {
  }

  /** A ternary's value is its first branch exactly when the test's value
      is truthy, whatever the branches are. */
  lemma TernarySelects(t: Expression, a: Operand, b: Operand, env: map<string, string>)
    requires Value(t, env).Ok?
    ensures Value(Ternary(t, a, b), env) == Ok(a) <==> Truthy(Value(t, env).value) || a == b
  {
  }
}
