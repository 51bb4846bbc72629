/** Blocking auth functions (`private/_identity_fn.py`): the check of
    what a `before_create` / `before_sign_in` handler returns, the
    payload sent back to Identity Platform, and the small selections made
    when decoding the event. The length of `json.dumps` of a claims
    dictionary is a parameter: the JSON encoder is not part of this
    model. */
module Identity {
  import opened Wrappers
  import opened Values
  import Strings
  import Https

  const ClaimsMaxPayloadSize := 1000

  /** The claims a handler may not set. */
  const ReservedClaims: seq<string> :=
    ["acr", "amr", "at_hash", "aud", "auth_time", "azp", "cnf", "c_hash",
     "exp", "iat", "iss", "jti", "nbf", "nonce", "firebase"]

  const BeforeCreate := "providers/cloud.auth/eventTypes/user.beforeCreate"
  const BeforeSignIn := "providers/cloud.auth/eventTypes/user.beforeSignIn"

  /** The reserved names present in `claims`, in the order of the
      reserved list. */
  function InvalidClaims(claims: map<string, Value>): (r: seq<string>)
    ensures forall c :: c in r <==> c in ReservedClaims && c in claims
  {
    InvalidFrom(claims, 0)
  }

  function InvalidFrom(claims: map<string, Value>, i: nat): (r: seq<string>)
    requires i <= |ReservedClaims|
    ensures forall c :: c in r <==> (exists j | i <= j < |ReservedClaims| :: ReservedClaims[j] == c) && c in claims
    decreases |ReservedClaims| - i
  {
    if i == |ReservedClaims| then []
    else
      var rest := InvalidFrom(claims, i + 1);
      if ReservedClaims[i] in claims then [ReservedClaims[i]] + rest else rest
  }

  /** The claims dictionary held under `key`, `{}` when unset or `None`. */
  function Claims(response: map<string, Value>, key: string): (m: map<string, Value>)
    requires ClaimsShaped(response, key)
    ensures Get(response, key).Dict? ==> m == Get(response, key).entries
    ensures Get(response, key).Null? ==> m == map[]
  {
    var v := Get(response, key);
    if v.Dict? then v.entries else map[]
  }

  /** The response types declare both claims fields as dictionaries. */
  predicate ClaimsShaped(response: map<string, Value>, key: string)
  {
    Get(response, key).Null? || Get(response, key).Dict?
  }

  /** The recognised response keys and their manifest spelling, in the
      order the output is built. */
  const Renames: seq<(string, string)> :=
    [("display_name", "displayName"), ("disabled", "disabled"),
     ("email_verified", "emailVerified"), ("photo_url", "photoURL"),
     ("custom_claims", "customClaims"), ("session_claims", "sessionClaims"),
     ("recaptcha_action_override", "recaptchaActionOverride")]

  /** The recognised keys by their manifest spelling. */
  const SnakeOf: map<string, string> :=
    map["displayName" := "display_name", "disabled" := "disabled",
        "emailVerified" := "email_verified", "photoURL" := "photo_url",
        "customClaims" := "custom_claims", "sessionClaims" := "session_claims",
        "recaptchaActionOverride" := "recaptcha_action_override"]

  lemma RenamesAgree(j: nat)
    requires j < |Renames|
    ensures Renames[j].1 in SnakeOf && SnakeOf[Renames[j].1] == Renames[j].0
  {
  }

  /** The output entries for the recognised keys from index `i` on. */
  function RenameFrom(response: map<string, Value>, i: nat): (r: seq<(string, Value)>)
    requires i <= |Renames|
    ensures forall e | e in r :: e.0 in SnakeOf && SnakeOf[e.0] in response && e.1 == response[SnakeOf[e.0]]
    ensures forall j | i <= j < |Renames| && Renames[j].0 in response :: (Renames[j].1, response[Renames[j].0]) in r
    decreases |Renames| - i
  {
    if i == |Renames| then []
    else
      var rest := RenameFrom(response, i + 1);
      RenamesAgree(i);
      if Renames[i].0 in response then [(Renames[i].1, response[Renames[i].0])] + rest else rest
  }

  function SizeError(what: string): Https.HttpsError
  {
    Https.HttpsError(Https.InvalidArgument, "The " + what + " payload should not exceed 1000 characters.")
  }

  function ReservedError(what: string, names: seq<string>): Https.HttpsError
  {
    Https.HttpsError(Https.InvalidArgument, "The " + what + " claims \"" + Strings.Join(names, ",")
                     + "\" are reserved and cannot be specified.")
  }

  /** The custom-claims checks. */
  function CustomRefusal(custom: map<string, Value>, dumpsLength: map<string, Value> -> nat)
    : (r: Option<Https.HttpsError>)
    ensures r.None? <==> custom == map[] || (|InvalidClaims(custom)| == 0 && dumpsLength(custom) <= ClaimsMaxPayloadSize)
  {
    if custom == map[] then None
    else if |InvalidClaims(custom)| > 0 then Some(ReservedError("custom_claims", InvalidClaims(custom)))
    else if dumpsLength(custom) > ClaimsMaxPayloadSize then Some(SizeError("custom_claims"))
    else None
  }

  /** The `before_sign_in` session-claims checks: the same rules as for
      custom claims, plus a limit on the two combined. */
  function SessionRefusal(custom: map<string, Value>, session: map<string, Value>,
                          dumpsLength: map<string, Value> -> nat)
    : (r: Option<Https.HttpsError>)
    ensures r.None? <==>
      || session == map[]
      || (&& |InvalidClaims(session)| == 0 && dumpsLength(session) <= ClaimsMaxPayloadSize
          && dumpsLength(custom + session) <= ClaimsMaxPayloadSize)
  {
    if session == map[] then None
    else if |InvalidClaims(session)| > 0 then Some(ReservedError("session_claims", InvalidClaims(session)))
    else if dumpsLength(session) > ClaimsMaxPayloadSize then Some(SizeError("session_claims"))
    else if dumpsLength(custom + session) > ClaimsMaxPayloadSize then
      Some(Https.HttpsError(Https.InvalidArgument,
        "The customClaims and session_claims payloads should not exceed 1000 characters combined."))
    else None
  }

  /** Why a response is refused, if it is: the checks in the order they
      are made. */
  function Refusal(eventType: string, response: map<string, Value>, dumpsLength: map<string, Value> -> nat)
    : (r: Option<Https.HttpsError>)
    requires ClaimsShaped(response, "custom_claims") && ClaimsShaped(response, "session_claims")
    ensures r.Some? ==> r.value.code == Https.InvalidArgument
  {
    var custom := Claims(response, "custom_claims");
    var session := Claims(response, "session_claims");
    if session != map[] && eventType == BeforeCreate then
      Some(Https.HttpsError(Https.InvalidArgument,
        "The session_claims claims cannot be specified for the before_create event."))
    else if CustomRefusal(custom, dumpsLength).Some? then CustomRefusal(custom, dumpsLength)
    else if eventType == BeforeSignIn then SessionRefusal(custom, session, dumpsLength)
    else None
  }

  /** `_validate_auth_response`: `None` counts as `{}`; a refused response
      raises `INVALID_ARGUMENT`; an accepted one keeps only the seven
      recognised keys, renamed, in a fixed order. */
  function ValidateAuthResponse(eventType: string, response: Option<map<string, Value>>,
                                dumpsLength: map<string, Value> -> nat)
    : (r: Result<seq<(string, Value)>, Https.HttpsError>)
    requires response.Some? ==> ClaimsShaped(response.value, "custom_claims")
                                && ClaimsShaped(response.value, "session_claims")
    ensures response.None? ==> r == Ok([])
    ensures r.Err? <==> response.Some? && Refusal(eventType, response.value, dumpsLength).Some?
    ensures r.Err? ==> r.error.code == Https.InvalidArgument
    ensures r.Ok? ==> var resp := response.GetOr(map[]);
      && (forall e | e in r.value :: e.0 in SnakeOf && SnakeOf[e.0] in resp && e.1 == resp[SnakeOf[e.0]])
      && (forall j | 0 <= j < |Renames| && Renames[j].0 in resp :: (Renames[j].1, resp[Renames[j].0]) in r.value)
  {
    var resp := response.GetOr(map[]);
    match Refusal(eventType, resp, dumpsLength)
    case Some(e) => Err(e)
    case None => Ok(RenameFrom(resp, 0))
  }

  /** A reserved custom claim is always refused, whatever the event. */
  lemma ReservedCustomClaimRefused(eventType: string, response: map<string, Value>,
                                   dumpsLength: map<string, Value> -> nat, claim: string)
    requires ClaimsShaped(response, "custom_claims") && ClaimsShaped(response, "session_claims")
    requires claim in ReservedClaims && Get(response, "custom_claims").Dict?
             && claim in Get(response, "custom_claims").entries
    ensures Refusal(eventType, response, dumpsLength).Some?
  {
    var custom := Claims(response, "custom_claims");
    assert claim in InvalidClaims(custom);
  }

  /** Session claims are refused on `before_create`. */
  lemma SessionClaimsBeforeCreate(response: map<string, Value>, dumpsLength: map<string, Value> -> nat)
    requires ClaimsShaped(response, "custom_claims") && ClaimsShaped(response, "session_claims")
    requires Claims(response, "session_claims") != map[]
    ensures Refusal(BeforeCreate, response, dumpsLength).Some?
  {
  }

  /** On `before_sign_in` a response is accepted exactly when both claim
      sets pass their checks; on any other event, `before_create` without
      session claims included, only the custom claims are checked. */
  lemma SignInRefusal(eventType: string, response: map<string, Value>, dumpsLength: map<string, Value> -> nat)
    requires ClaimsShaped(response, "custom_claims") && ClaimsShaped(response, "session_claims")
    ensures var custom := Claims(response, "custom_claims");
      var session := Claims(response, "session_claims");
      && (Refusal(BeforeSignIn, response, dumpsLength).None? <==>
            CustomRefusal(custom, dumpsLength).None? && SessionRefusal(custom, session, dumpsLength).None?)
      && (eventType != BeforeSignIn && (eventType != BeforeCreate || session == map[]) ==>
            (Refusal(eventType, response, dumpsLength).None? <==> CustomRefusal(custom, dumpsLength).None?))
  {
    assert BeforeSignIn != BeforeCreate by {
      assert BeforeSignIn[43] != BeforeCreate[43];
    }
  }

  /** The checks run in source order: session claims on `before_create`
      first, then the custom claims, then, on `before_sign_in` only, the
      session claims. A response failing two checks gets the earlier
      check's error. */
  lemma RefusalOrder(eventType: string, response: map<string, Value>, dumpsLength: map<string, Value> -> nat)
    requires ClaimsShaped(response, "custom_claims") && ClaimsShaped(response, "session_claims")
    ensures var custom := Claims(response, "custom_claims");
      var session := Claims(response, "session_claims");
      var r := Refusal(eventType, response, dumpsLength);
      && (eventType == BeforeCreate && session != map[] ==>
            r == Some(Https.HttpsError(Https.InvalidArgument,
                   "The session_claims claims cannot be specified for the before_create event.")))
      && (!(eventType == BeforeCreate && session != map[]) && CustomRefusal(custom, dumpsLength).Some? ==>
            r == CustomRefusal(custom, dumpsLength))
      && (eventType == BeforeSignIn && CustomRefusal(custom, dumpsLength).None? ==>
            r == SessionRefusal(custom, session, dumpsLength))
  {
    assert BeforeSignIn != BeforeCreate by {
      assert BeforeSignIn[43] != BeforeCreate[43];
    }
  }

  /** The keys of an association list, in order. */
  function Keys(d: seq<(string, Value)>): (r: seq<string>)
    ensures |r| == |d| && forall i | 0 <= i < |d| :: r[i] == d[i].0
  {
    if d == [] then [] else [d[0].0] + Keys(d[1..])
  }

  /** The entries of an association list as a dictionary. */
  function AsMap(d: seq<(string, Value)>): (m: map<string, Value>)
    ensures m.Keys == set e | e in d :: e.0
  {
    if d == [] then map[] else AsMap(d[1..])[d[0].0 := d[0].1]
  }

  /** The list without the entries under `key`. */
  function Without(d: seq<(string, Value)>, key: string): (r: seq<(string, Value)>)
    ensures forall e :: e in r <==> e in d && e.0 != key
  {
    if d == [] then []
    else if d[0].0 == key then Without(d[1..], key)
    else [d[0]] + Without(d[1..], key)
  }

  /** `dict.pop(key, None)`: the value under `key`, `Null` when absent. */
  function Lookup(d: seq<(string, Value)>, key: string): (v: Value)
    ensures (forall e | e in d :: e.0 != key) ==> v == Null
    ensures (exists e | e in d :: e.0 == key) ==> exists e | e in d :: e.0 == key && e.1 == v
  {
    if d == [] then Null else if d[0].0 == key then d[0].1 else Lookup(d[1..], key)
  }

  /** `_generate_response_payload`: an empty response gives `{}`;
      `recaptchaActionOverride` moves to the top level; the other entries
      go to `userRecord` with an `updateMask` naming them, comma-joined in
      order, and `userRecord` is left out when the mask is empty. */
  function GenerateResponsePayload(d: seq<(string, Value)>): (r: map<string, Value>)
    ensures d == [] ==> r == map[]
    ensures d != [] ==> var rest := Without(d, "recaptchaActionOverride");
      var mask := Strings.Join(Keys(rest), ",");
      && ("userRecord" in r <==> mask != "")
      && ("userRecord" in r ==> r["userRecord"] == Dict(AsMap(rest)["updateMask" := Str(mask)]))
      && ("recaptchaActionOverride" in r <==> !Lookup(d, "recaptchaActionOverride").Null?)
      && ("recaptchaActionOverride" in r ==> r["recaptchaActionOverride"] == Lookup(d, "recaptchaActionOverride"))
    ensures r.Keys <= {"userRecord", "recaptchaActionOverride"}
  {
    if d == [] then map[]
    else
      var override := Lookup(d, "recaptchaActionOverride");
      var rest := Without(d, "recaptchaActionOverride");
      var mask := Strings.Join(Keys(rest), ",");
      var result := if mask != "" then map["userRecord" := Dict(AsMap(rest)["updateMask" := Str(mask)])] else map[];
      if !override.Null? then result["recaptchaActionOverride" := override] else result
  }

  /** Joining non-empty names never gives the empty string. */
  lemma {:induction false} JoinNonEmpty(names: seq<string>, sep: string)
    requires |names| > 0 && forall n | n in names :: n != ""
    ensures Strings.Join(names, sep) != ""
    decreases |names|
  {
    if |names| > 1 {
      forall n | n in names[1..] ensures n != "" {
        assert n in names;
      }
      JoinNonEmpty(names[1..], sep);
    } else {
      assert names[0] in names;
    }
  }

  /** With non-empty keys, a payload has a user record exactly when some
      entry other than the reCAPTCHA override is present. */
  lemma PayloadUserRecord(d: seq<(string, Value)>)
    requires forall e | e in d :: e.0 != ""
    ensures "userRecord" in GenerateResponsePayload(d) <==> exists e | e in d :: e.0 != "recaptchaActionOverride"
  {
    var rest := Without(d, "recaptchaActionOverride");
    if d != [] && rest != [] {
      forall n | n in Keys(rest) ensures n != "" {
        var i :| 0 <= i < |Keys(rest)| && Keys(rest)[i] == n;
        assert rest[i] in d;
      }
      JoinNonEmpty(Keys(rest), ",");
    }
    if exists e | e in d :: e.0 != "recaptchaActionOverride" {
      var e :| e in d && e.0 != "recaptchaActionOverride";
      assert e in rest;
    }
  }

  /** A handler that only overrides the reCAPTCHA action sends no user
      record; one that sets any other recognised field sends one. */
  lemma PayloadOfValidated(eventType: string, response: map<string, Value>, dumpsLength: map<string, Value> -> nat)
    requires ClaimsShaped(response, "custom_claims") && ClaimsShaped(response, "session_claims")
    requires ValidateAuthResponse(eventType, Some(response), dumpsLength).Ok?
    ensures var d := ValidateAuthResponse(eventType, Some(response), dumpsLength).value;
      ("userRecord" in GenerateResponsePayload(d) <==> exists e | e in d :: e.0 != "recaptchaActionOverride")
  {
    var d := ValidateAuthResponse(eventType, Some(response), dumpsLength).value;
    forall e | e in d ensures e.0 != "" {
      assert e.0 in SnakeOf;
    }
    PayloadUserRecord(d);
  }

  /** `provider_id` of the additional user info and of the credential:
      `"password"` for an email-link sign-in, else the sign-in method as
      text (`"None"` when there is none). */
  function ProviderId(signInMethod: Option<string>): (r: string)
    ensures r == "password" <==> signInMethod == Some("emailLink") || signInMethod == Some("password")
    ensures signInMethod.Some? && signInMethod.value != "emailLink" ==> r == signInMethod.value
    ensures signInMethod.None? ==> r == "None"
  {
    match signInMethod
    case Some(m) => if m == "emailLink" then "password" else m
    case None => "None"
  }

  /** `is_new_user`. */
  predicate IsNewUser(token: map<string, Value>)
  {
    Get(token, "event_type") == Str("beforeCreate")
  }

  /** The username of the additional user info: taken from the parsed
      profile, under `login` for GitHub and `screen_name` for Twitter,
      and `None` for any other provider or an empty profile. */
  function Username(signInMethod: Value, profile: Option<map<string, Value>>): (r: Value)
    ensures profile.None? || profile.value == map[] ==> r.Null?
    ensures signInMethod != Str("github.com") && signInMethod != Str("twitter.com") ==> r.Null?
    ensures profile.Some? && signInMethod == Str("github.com") ==> r == Get(profile.value, "login")
    ensures profile.Some? && signInMethod == Str("twitter.com") ==> r == Get(profile.value, "screen_name")
  {
    match profile
    case None => Null
    case Some(p) =>
      if p == map[] then Null
      else if signInMethod == Str("github.com") then Get(p, "login")
      else if signInMethod == Str("twitter.com") then Get(p, "screen_name")
      else Null
  }

  /** The `factor_id` of an enrolled factor: `"phone"` when it has a phone
      number, else its own `factor_id`, whose absence is a `KeyError`. */
  function FactorId(factor: map<string, Value>): (r: Result<Value, PyError>)
    ensures Truthy(Get(factor, "phone_number")) ==> r == Ok(Str("phone"))
    ensures !Truthy(Get(factor, "phone_number")) ==>
      r == (if "factor_id" in factor then Ok(factor["factor_id"]) else Err(KeyError("factor_id")))
  {
    if Truthy(Get(factor, "phone_number")) then Ok(Str("phone"))
    else if "factor_id" in factor then Ok(factor["factor_id"])
    else Err(KeyError("factor_id"))
  }

  /** The credential of a blocking event, without its expiration time. */
  datatype Credential = Credential(
    claims: Value, idToken: Value, accessToken: Value, refreshToken: Value,
    secret: Value, providerId: string, signInMethod: Value)

  /** Whether the event carries any credential material. */
  predicate HasCredential(token: map<string, Value>)
  {
    Truthy(Get(token, "sign_in_attributes")) || Truthy(Get(token, "oauth_id_token"))
    || Truthy(Get(token, "oauth_access_token")) || Truthy(Get(token, "oauth_refresh_token"))
  }

  /** `_credential_from_token_data` without the clock: `None` unless some
      credential material is present; then the sign-in method is
      required. */
  function CredentialOf(token: map<string, Value>): (r: Result<Option<Credential>, PyError>)
    ensures !HasCredential(token) ==> r == Ok(None)
    ensures HasCredential(token) ==> (r.Ok? <==> "sign_in_method" in token)
    ensures r.Ok? && r.value.Some? ==>
      && r.value.value.idToken == Get(token, "oauth_id_token")
      && r.value.value.accessToken == Get(token, "oauth_access_token")
      && r.value.value.refreshToken == Get(token, "oauth_refresh_token")
      && r.value.value.signInMethod == token["sign_in_method"]
      && r.value.value.claims == Get(token, "sign_in_attributes")
      && r.value.value.secret == Get(token, "oauth_token_secret")
      && r.value.value.providerId == ProviderIdOf(token["sign_in_method"])
  {
    if !HasCredential(token) then Ok(None)
    else if "sign_in_method" !in token then Err(KeyError("sign_in_method"))
    else
      var m := token["sign_in_method"];
      Ok(Some(Credential(
        Get(token, "sign_in_attributes"), Get(token, "oauth_id_token"), Get(token, "oauth_access_token"),
        Get(token, "oauth_refresh_token"), Get(token, "oauth_token_secret"),
        ProviderIdOf(m), m)))
  }

  /** `provider_id` from the raw sign-in method value: `"password"` for
      `"emailLink"`, otherwise Python's `str()` of the value. A list or
      dict, whose `repr` is not modelled, gets a placeholder. */
  function ProviderIdOf(m: Value): (r: string)
    ensures m.Str? ==> r == ProviderId(Some(m.s))
    ensures m.Null? ==> r == ProviderId(None) && r == "None"
    ensures m.Int? ==> r == Strings.IntToString(m.i)
    ensures m.Bool? ==> r == (if m.b then "True" else "False")
  {
    match m
    case Str(s) => ProviderId(Some(s))
    case Null => ProviderId(None)
    case Int(i) => Strings.IntToString(i)
    case Bool(b) => Strings.BoolText(b)
    case _ => "<object>"
  }
}
