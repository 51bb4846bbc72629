/** Callable HTTPS functions (`https_fn.py`): the error-code table, the
    error and response envelopes, the request checks made before the
    handler runs, the CORS headers and the resolution of App Check
    enforcement. Verifying the tokens themselves is outside the model:
    its outcome is passed in. */
module Https {
  import Wrappers
  import opened Values
  import Util
  import Strings

  /** `FunctionsErrorCode`. */
  datatype ErrorCode =
    | Ok | Cancelled | Unknown | InvalidArgument | DeadlineExceeded | NotFound
    | AlreadyExists | PermissionDenied | Unauthenticated | ResourceExhausted
    | FailedPrecondition | Aborted | OutOfRange | Unimplemented | Internal
    | Unavailable | DataLoss

  /** The wire value of a code, as the client sends it. */
  function CodeValue(c: ErrorCode): string
  {
    match c
    case Ok => "ok"
    case Cancelled => "cancelled"
    case Unknown => "unknown"
    case InvalidArgument => "invalid-argument"
    case DeadlineExceeded => "deadline-exceeded"
    case NotFound => "not-found"
    case AlreadyExists => "already-exists"
    case PermissionDenied => "permission-denied"
    case Unauthenticated => "unauthenticated"
    case ResourceExhausted => "resource-exhausted"
    case FailedPrecondition => "failed-precondition"
    case Aborted => "aborted"
    case OutOfRange => "out-of-range"
    case Unimplemented => "unimplemented"
    case Internal => "internal"
    case Unavailable => "unavailable"
    case DataLoss => "data-loss"
  }

  /** `_HttpErrorCode`: the canonical name and HTTP status of a code. */
  datatype HttpErrorCode = HttpErrorCode(canonicalName: string, status: int)

  /** `_error_code_map`, total over the codes. */
  function ErrorCodeMap(c: ErrorCode): (h: HttpErrorCode)
    ensures h.status in {200, 400, 401, 403, 404, 409, 429, 499, 500, 501, 503, 504}
    ensures h.status == 200 <==> c == Ok
  {
    match c
    case Ok => HttpErrorCode("OK", 200)
    case Cancelled => HttpErrorCode("CANCELLED", 499)
    case Unknown => HttpErrorCode("UNKNOWN", 500)
    case InvalidArgument => HttpErrorCode("INVALID_ARGUMENT", 400)
    case DeadlineExceeded => HttpErrorCode("DEADLINE_EXCEEDED", 504)
    case NotFound => HttpErrorCode("NOT_FOUND", 404)
    case AlreadyExists => HttpErrorCode("ALREADY_EXISTS", 409)
    case PermissionDenied => HttpErrorCode("PERMISSION_DENIED", 403)
    case Unauthenticated => HttpErrorCode("UNAUTHENTICATED", 401)
    case ResourceExhausted => HttpErrorCode("RESOURCE_EXHAUSTED", 429)
    case FailedPrecondition => HttpErrorCode("FAILED_PRECONDITION", 400)
    case Aborted => HttpErrorCode("ABORTED", 409)
    case OutOfRange => HttpErrorCode("OUT_OF_RANGE", 400)
    case Unimplemented => HttpErrorCode("UNIMPLEMENTED", 501)
    case Internal => HttpErrorCode("INTERNAL", 500)
    case Unavailable => HttpErrorCode("UNAVAILABLE", 503)
    case DataLoss => HttpErrorCode("DATA_LOSS", 500)
  }

  const AllCodes: seq<ErrorCode> :=
    [Ok, Cancelled, Unknown, InvalidArgument, DeadlineExceeded, NotFound, AlreadyExists,
     PermissionDenied, Unauthenticated, ResourceExhausted, FailedPrecondition, Aborted,
     OutOfRange, Unimplemented, Internal, Unavailable, DataLoss]

  /** `FunctionsErrorCode(s)`: the code whose wire value is `s`, if any. */
  function ParseCode(s: string): (r: Wrappers.Option<ErrorCode>)
    ensures r.Some? ==> CodeValue(r.value) == s
  {
    FindCode(s, AllCodes)
  }

  /** The first of `codes` whose wire value is `s`. */
  function FindCode(s: string, codes: seq<ErrorCode>): (r: Wrappers.Option<ErrorCode>)
    ensures r.Some? ==> r.value in codes && CodeValue(r.value) == s
    ensures r.None? ==> forall c | c in codes :: CodeValue(c) != s
  {
    if |codes| == 0 then Wrappers.None
    else if CodeValue(codes[0]) == s then Wrappers.Some(codes[0])
    else FindCode(s, codes[1..])
  }

  /** Parsing a code's wire value gives the code back, and a string that
      is no code's wire value is refused. */
  lemma ParseCodeRoundTrip(c: ErrorCode, s: string)
    ensures ParseCode(CodeValue(c)) == Wrappers.Some(c)
    ensures (forall d: ErrorCode :: CodeValue(d) != s) ==> ParseCode(s).None?
  {
    assert c in AllCodes;
    var r := ParseCode(CodeValue(c));
    if r.Some? && r.value != c {
      CodesDistinct(r.value, c);
    }
  }

  /** Every code has its own wire value and its own canonical name, so the
      table is a bijection onto the seventeen names. */
  lemma CodesDistinct(a: ErrorCode, b: ErrorCode)
    requires a != b
    ensures CodeValue(a) != CodeValue(b)
    ensures ErrorCodeMap(a).canonicalName != ErrorCodeMap(b).canonicalName
  {
  }

  /** `HttpsError`; `details` is `Null` when none were given. */
  datatype HttpsError = HttpsError(code: ErrorCode, message: string, details: Value := Null)

  /** `HttpsError._as_dict`: status and message, plus the details when
      there are any. */
  function AsDict(e: HttpsError): (d: map<string, Value>)
    ensures d.Keys == if e.details.Null? then {"status", "message"} else {"status", "message", "details"}
    ensures d["status"] == Str(ErrorCodeMap(e.code).canonicalName)
    ensures d["message"] == Str(e.message)
    ensures !e.details.Null? ==> d["details"] == e.details
  {
    if e.details.Null? then
      map["status" := Str(ErrorCodeMap(e.code).canonicalName), "message" := Str(e.message)]
    else
      map["details" := e.details, "status" := Str(ErrorCodeMap(e.code).canonicalName),
          "message" := Str(e.message)]
  }

  /** What a callable handler can raise: an `HttpsError`, or any other
      exception. */
  datatype Raised = Raise(error: HttpsError) | OtherError(cause: Wrappers.PyError)

  /** `_format_on_call_error`: any exception but an `HttpsError` is
      reported as `INTERNAL`, so the client never sees its message. */
  function FormatOnCallError(err: Raised): (r: (map<string, Value>, int))
    ensures r.0.Keys == {"error"}
    ensures err.Raise? ==> r == (map["error" := Dict(AsDict(err.error))], ErrorCodeMap(err.error.code).status)
    ensures err.OtherError? ==>
      r == (map["error" := Dict(map["status" := Str("INTERNAL"), "message" := Str("INTERNAL")])], 500)
  {
    var e := if err.Raise? then err.error else HttpsError(Internal, "INTERNAL");
    (map["error" := Dict(AsDict(e))], ErrorCodeMap(e.code).status)
  }

  /** `_format_on_call_response`. */
  function FormatOnCallResponse(result: Value): (body: map<string, Value>)
    ensures body.Keys == {"result"} && body["result"] == result
  {
    map["result" := result]
  }

  /** A callable client tells the two bodies apart by their key: a
      response carries the result under `result` and no `error`, and an
      error body carries no `result`. */
  lemma OnCallBodiesDistinct(result: Value, err: Raised)
    ensures "result" in FormatOnCallResponse(result) && FormatOnCallResponse(result)["result"] == result
    ensures "error" !in FormatOnCallResponse(result)
    ensures "error" in FormatOnCallError(err).0 && "result" !in FormatOnCallError(err).0
    ensures FormatOnCallResponse(result).Keys !! FormatOnCallError(err).0.Keys
  {
  }

  const BadRequest := HttpsError(InvalidArgument, "Bad Request")
  const NotAuthenticated := HttpsError(Unauthenticated, "Unauthenticated")

  /** `dict.get(a) or dict.get(b)`: the first header when it is set and
      non-empty, else the second. */
  function HeaderEither(headers: map<string, string>, a: string, b: string): (r: Wrappers.Option<string>)
    ensures a in headers && headers[a] != "" ==> r == Wrappers.Some(headers[a])
    ensures !(a in headers && headers[a] != "") ==>
      r == (if b in headers then Wrappers.Some(headers[b]) else Wrappers.None)
  {
    if a in headers && headers[a] != "" then Wrappers.Some(headers[a])
    else if b in headers then Wrappers.Some(headers[b])
    else Wrappers.None
  }

  /** The content type a request is judged by: the lower-case header if
      non-empty, else the capitalised one, else `""`. */
  function ContentType(headers: map<string, string>): string
  {
    HeaderEither(headers, "content-type", "Content-Type").GetOr("")
  }

  /** `_validate_on_call_request_headers`: only a `POST` whose content type
      starts with `application/json` gets through. */
  function ValidateHeaders(httpMethod: string, headers: map<string, string>): (r: Wrappers.Result<(), HttpsError>)
    ensures r.Ok? <==> httpMethod == "POST" && "application/json" <= ContentType(headers)
    ensures r.Err? ==> r.error == BadRequest
  {
    if httpMethod != "POST" then Wrappers.Err(BadRequest)
    else if !("application/json" <= ContentType(headers)) then Wrappers.Err(BadRequest)
    else Wrappers.Ok(())
  }

  /** `AuthData`: the `uid` claim, if any, and the decoded claims. */
  datatype AuthData = AuthData(uid: Wrappers.Option<Value>, token: map<string, Value>)

  /** `AppCheckData`: the `sub` claim and the decoded claims. */
  datatype AppCheckData = AppCheckData(appId: Value, token: map<string, Value>)

  /** `CallableRequest`, without the raw request. */
  datatype CallableRequest = CallableRequest(
    data: Value,
    app: Wrappers.Option<AppCheckData> := Wrappers.None,
    auth: Wrappers.Option<AuthData> := Wrappers.None,
    instanceIdToken: Wrappers.Option<string> := Wrappers.None)

  /** `_process_on_call_request_body`. `body` is the parsed JSON object,
      `None` when the bytes are not valid JSON; `tokens` is what the token
      checks made of the request's headers. */
  function ProcessBody(headers: map<string, string>, httpMethod: string,
                       body: Wrappers.Option<map<string, Value>>, enforceAppCheck: bool,
                       tokens: Util.TokenVerification)
    : (r: Wrappers.Result<CallableRequest, Raised>)
    ensures r.Ok? <==>
      && ValidateHeaders(httpMethod, headers).Ok?
      && body.Some? && "data" in body.value
      && tokens.auth != Util.Invalid
      && !(enforceAppCheck && tokens.app != Util.Valid)
      && !(tokens.app == Util.Valid && tokens.appToken.Some? && "sub" !in tokens.appToken.value)
    ensures r.Err? && (ValidateHeaders(httpMethod, headers).Err? || body.None? || "data" !in body.value)
      ==> r.error == Raise(BadRequest)
    ensures r.Err? && ValidateHeaders(httpMethod, headers).Ok? && body.Some? && "data" in body.value
      && (tokens.auth == Util.Invalid || (enforceAppCheck && tokens.app != Util.Valid))
      ==> r.error == Raise(NotAuthenticated)
    ensures r.Ok? ==>
      && r.value.data == body.value["data"]
      && (r.value.app.Some? <==> tokens.app == Util.Valid && tokens.appToken.Some?)
      && (r.value.app.Some? ==> r.value.app.value == AppCheckData(tokens.appToken.value["sub"], tokens.appToken.value))
      && (r.value.auth.Some? <==> tokens.authToken.Some?)
      && (r.value.auth.Some? ==> r.value.auth.value.token == tokens.authToken.value)
      && r.value.instanceIdToken == HeaderEither(headers, "firebase-instance-id-token", "Firebase-Instance-ID-Token")
  {
    if ValidateHeaders(httpMethod, headers).Err? then Wrappers.Err(Raise(BadRequest))
    else if body.None? then Wrappers.Err(Raise(BadRequest))
    else if "data" !in body.value then Wrappers.Err(Raise(BadRequest))
    else if tokens.auth == Util.Invalid then Wrappers.Err(Raise(NotAuthenticated))
    else if enforceAppCheck && (tokens.app == Util.Missing || tokens.app == Util.Invalid) then
      Wrappers.Err(Raise(NotAuthenticated))
    else
      var context := CallableRequest(body.value["data"]);
      if tokens.app == Util.Valid && tokens.appToken.Some? && "sub" !in tokens.appToken.value then
        Wrappers.Err(OtherError(Wrappers.KeyError("sub")))
      else
        var context := if tokens.app == Util.Valid && tokens.appToken.Some? then
          context.(app := Wrappers.Some(AppCheckData(tokens.appToken.value["sub"], tokens.appToken.value)))
        else context;
        var context := match tokens.authToken
          case None => context
          case Some(t) =>
            context.(auth := Wrappers.Some(AuthData(if "uid" in t then Wrappers.Some(t["uid"]) else Wrappers.None, t)));
        assert !(enforceAppCheck && tokens.app != Util.Valid);
        Wrappers.Ok(context.(instanceIdToken :=
          HeaderEither(headers, "firebase-instance-id-token", "Firebase-Instance-ID-Token")))
  }

  /** Without enforcement a request with no App Check token is served;
      with enforcement it is refused as unauthenticated, whatever else it
      carries. */
  lemma AppCheckEnforcement(headers: map<string, string>, body: map<string, Value>,
                            auth: Util.CheckOutcome)
    requires ValidateHeaders("POST", headers).Ok? && "data" in body && !auth.Rejected?
    ensures ProcessBody(headers, "POST", Wrappers.Some(body), false, Util.CheckTokens(auth, Util.NoToken)).Ok?
    ensures ProcessBody(headers, "POST", Wrappers.Some(body), true, Util.CheckTokens(auth, Util.NoToken))
            == Wrappers.Err(Raise(NotAuthenticated))
  {
  }

  /** Every refusal of a callable request reaches the client as
      `INVALID_ARGUMENT` (400) or `UNAUTHENTICATED` (401), or as
      `INTERNAL` (500) for the missing `sub` claim. */
  lemma RefusalStatus(headers: map<string, string>, httpMethod: string,
                      body: Wrappers.Option<map<string, Value>>, enforceAppCheck: bool,
                      tokens: Util.TokenVerification)
    requires ProcessBody(headers, httpMethod, body, enforceAppCheck, tokens).Err?
    ensures FormatOnCallError(ProcessBody(headers, httpMethod, body, enforceAppCheck, tokens).error).1 in {400, 401, 500}
  {
  }

  /** `cors_origins`: unset, one origin, or a list of origins. */
  datatype Origins = AnyOrigin | OneOrigin(origin: string) | OriginList(origins: seq<string>)

  /** `cors_methods`: unset, one method, or a list of methods. */
  datatype Methods = NoMethods | OneMethod(name: string) | MethodList(names: seq<string>)

  datatype CorsOptions = CorsOptions(origins: Origins := AnyOrigin, methods: Methods := NoMethods)

  /** `x or "*"` followed by the list join: an unset, empty or empty-list
      origin allows every origin. */
  function AllowOrigin(o: Origins): (r: string)
    ensures o.AnyOrigin? || o == OneOrigin("") || o == OriginList([]) ==> r == "*"
    ensures o.OneOrigin? && o.origin != "" ==> r == o.origin
    ensures o.OriginList? && o.origins != [] ==> r == Strings.Join(o.origins, ", ")
  {
    match o
    case AnyOrigin => "*"
    case OneOrigin(s) => if s == "" then "*" else s
    case OriginList(xs) => if xs == [] then "*" else Strings.Join(xs, ", ")
  }

  /** The allowed methods: the handler's own list when non-empty, else the
      configured methods when non-empty, else `*`. */
  function AllowMethods(allowed: Wrappers.Option<seq<string>>, m: Methods): (r: string)
    ensures allowed.Some? && allowed.value != [] ==> r == Strings.Join(allowed.value, ", ")
    ensures !(allowed.Some? && allowed.value != []) && m.OneMethod? && m.name != "" ==> r == m.name
    ensures !(allowed.Some? && allowed.value != []) && m.MethodList? && m.names != [] ==> r == Strings.Join(m.names, ", ")
    ensures !(allowed.Some? && allowed.value != []) && (m.NoMethods? || m == OneMethod("") || m == MethodList([]))
      ==> r == "*"
  {
    if allowed.Some? && allowed.value != [] then Strings.Join(allowed.value, ", ")
    else match m
      case OneMethod(s) => if s == "" then "*" else s
      case MethodList(xs) => if xs == [] then "*" else Strings.Join(xs, ", ")
      case NoMethods => "*"
  }

  const AllowHeaders :=
    "Content-Type, Authorization, Firebase-Instance-ID-Token, Firebase-AppCheck, X-Firebase-AppCheck"

  /** `_add_cors_headers_to_response`: the headers written into the
      response. Without CORS options none are; `Vary` and
      `Access-Control-Allow-Credentials` only accompany a specific
      origin. */
  function CorsHeaders(cors: Wrappers.Option<CorsOptions>, allowed: Wrappers.Option<seq<string>>)
    : (h: map<string, string>)
    ensures cors.None? ==> h == map[]
    ensures cors.Some? ==>
      && "Access-Control-Allow-Origin" in h && h["Access-Control-Allow-Origin"] == AllowOrigin(cors.value.origins)
      && "Access-Control-Allow-Methods" in h && h["Access-Control-Allow-Methods"] == AllowMethods(allowed, cors.value.methods)
      && "Access-Control-Allow-Headers" in h && h["Access-Control-Allow-Headers"] == AllowHeaders
      && ("Vary" in h <==> AllowOrigin(cors.value.origins) != "*")
      && ("Access-Control-Allow-Credentials" in h <==> AllowOrigin(cors.value.origins) != "*")
      && ("Vary" in h ==> h["Vary"] == "Origin" && h["Access-Control-Allow-Credentials"] == "true")
    ensures h.Keys <= {"Access-Control-Allow-Origin", "Access-Control-Allow-Methods",
                       "Access-Control-Allow-Headers", "Vary", "Access-Control-Allow-Credentials"}
  {
    match cors
    case None => map[]
    case Some(c) =>
      var origin := AllowOrigin(c.origins);
      var h := map["Access-Control-Allow-Origin" := origin,
                   "Access-Control-Allow-Methods" := AllowMethods(allowed, c.methods),
                   "Access-Control-Allow-Headers" := AllowHeaders];
      if origin != "*" then h["Vary" := "Origin"]["Access-Control-Allow-Credentials" := "true"] else h
  }

  /** The App Check enforcement of a callable function: its own flag when
      set, else the global one when set, else off. */
  function EnforceAppCheck(local: Wrappers.Option<bool>, global: Wrappers.Option<bool>): (b: bool)
    ensures local.Some? ==> b == local.value
    ensures local.None? && global.Some? ==> b == global.value
    ensures local.None? && global.None? ==> !b
  {
    if local.None? && global.Some? then global.value
    else if local.Some? then local.value
    else false
  }
}
