/** Three decision rules of the HTTP server: the CORS origin check, the status emoji of the
    request log, and the global error handler's choice of status and body. */
module Server {
  import opened Wrappers
  import Text
  import Json
  import ServiceErrors

  // ---------------------------------------------------------------------------
  // CORS
  // ---------------------------------------------------------------------------

  /** `process.env.CORS_ORIGINS?.split(",")`: no list when the variable is unset. */
  function AllowedOrigins(env: Option<string>): (allowed: Option<seq<string>>)
    ensures env.None? <==> allowed.None?
    ensures env.Some? ==> |allowed.value| == Text.Occurrences(env.value, ',') + 1
  {
    Text.SplitCount(env.GetOr(""), ',');
    match env
    case None => None
    case Some(s) => Some(Text.Split(s, ','))
  }

  datatype CorsAnswer = Allow | Reject(message: string)

  /** The `origin` callback: a request without an Origin header (or an empty one) is allowed;
      otherwise the origin must be on the configured list. */
  function CorsOrigin(origin: Option<string>, allowed: Option<seq<string>>): (a: CorsAnswer)
    ensures a.Reject? ==> origin.Some? && a.message == "Origin " + origin.value + " not allowed by CORS"
  {
    match origin
    case None => Allow
    case Some(o) =>
      if o == "" then Allow
      else if allowed.Some? && o in allowed.value then Allow
      else Reject("Origin " + o + " not allowed by CORS")
  }

  /** A missing or empty origin is always allowed; any other exactly when the list exists
      and contains it. */
  lemma CorsDecision(origin: Option<string>, allowed: Option<seq<string>>)
    ensures origin.None? ==> CorsOrigin(origin, allowed) == Allow
    ensures origin == Some("") ==> CorsOrigin(origin, allowed) == Allow
    ensures origin.Some? && origin.value != "" ==>
      (CorsOrigin(origin, allowed) == Allow <==> allowed.Some? && origin.value in allowed.value)
    ensures allowed.None? && origin.Some? && origin.value != "" ==> CorsOrigin(origin, allowed).Reject?
  {
  }

  /** Since the list is split on commas, an origin that contains a comma is never allowed. */
  lemma CommaOriginRejected(env: Option<string>, o: string)
    requires ',' in o
    ensures CorsOrigin(Some(o), AllowedOrigins(env)).Reject?
  {
    if env.Some? {
      Text.SplitPiecesFree(env.value, ',');
    }
  }

  /** Configuring `CORS_ORIGINS` as the comma-joined list of comma-free origins allows exactly
      those origins. */
  lemma ConfiguredListAllowed(list: seq<string>, o: string)
    requires |list| >= 1 && forall k :: 0 <= k < |list| ==> ',' !in list[k]
    requires o != ""
    ensures CorsOrigin(Some(o), AllowedOrigins(Some(Text.Join(list, ',')))) == Allow <==> o in list
  {
    Text.SplitJoin(list, ',');
  }

  // ---------------------------------------------------------------------------
  // The status emoji of the response log
  // ---------------------------------------------------------------------------

  datatype StatusEmoji = Skull | X | Rocket | WhiteCheckMark | Rewind

  /** The band of statuses each emoji stands for. */
  predicate InBand(e: StatusEmoji, status: int) {
    match e
    case Skull => 500 <= status
    case X => 400 <= status < 500
    case Rocket => 300 <= status < 400
    case WhiteCheckMark => 200 <= status < 300
    case Rewind => status < 200
  }

  /** `getStatusEmoji`: the first threshold the status reaches, from the top. */
  function GetStatusEmoji(status: int): (e: StatusEmoji)
    ensures InBand(e, status)
  {
    if status >= 500 then Skull
    else if status >= 400 then X
    else if status >= 300 then Rocket
    else if status >= 200 then WhiteCheckMark
    else Rewind
  }

  /** The bands are disjoint and cover every status, so the emoji names the band. */
  lemma BandsPartition(status: int, e: StatusEmoji)
    ensures InBand(e, status) <==> GetStatusEmoji(status) == e
    ensures exists b :: InBand(b, status)
  {
    assert InBand(GetStatusEmoji(status), status);
  }

  // ---------------------------------------------------------------------------
  // The global error handler
  // ---------------------------------------------------------------------------

  /** What reaches the error handler: a ServiceError, or any other error object whose
      properties may be missing. */
  datatype Thrown =
    | Service(error: ServiceErrors.ServiceError, stack: Option<string>)
    | Other(statusCode: Option<int>, status: Option<int>, code: Option<string>,
            message: Option<string>, details: Option<Json.Members>, stack: Option<string>)

  /** The error the JWT middleware left on the request. */
  datatype JwtError = JwtError(message: string)

  /** The body rendered for a browser. */
  datatype ErrorBody = ErrorBody(
    statusCode: int, code: string, message: Option<string>, details: Json.Members,
    stack: Option<string>, url: string)

  /** The JSON body for an API client: no url. */
  datatype JsonErrorBody = JsonErrorBody(
    statusCode: int, code: string, message: Option<string>, details: Json.Members, stack: Option<string>)

  datatype ErrorResponse = RenderHtml(status: int, view: ErrorBody) | SendJson(status: int, body: JsonErrorBody)

  function StatusCodeOf(t: Thrown): Option<int> {
    match t
    case Service(e, _) => Some(e.statusCode)
    case Other(statusCode, _, _, _, _, _) => statusCode
  }

  function StatusOf(t: Thrown): Option<int> {
    if t.Other? then t.status else None
  }

  function CodeOf(t: Thrown): Option<string> {
    match t
    case Service(e, _) => Some(e.code)
    case Other(_, _, code, _, _, _) => code
  }

  function MessageOf(t: Thrown): Option<string> {
    match t
    case Service(e, _) => Some(e.message)
    case Other(_, _, _, message, _, _) => message
  }

  function DetailsOf(t: Thrown): Option<Json.Members> {
    match t
    case Service(e, _) => Some(e.details)
    case Other(_, _, _, _, details, _) => details
  }

  /** JavaScript truthiness of an optional number and of an optional string. */
  predicate TruthyNumber(n: Option<int>) { n.Some? && n.value != 0 }
  predicate TruthyString(s: Option<string>) { s.Some? && s.value != "" }

  /** The error handler. The status and the body are built step by step: first from the
      error's own properties, then a ServiceError's statusCode, then a JWT failure. */
  method HandleError(error: Thrown, url: string, nodeEnv: Option<string>, jwt: Option<JwtError>, acceptsHtml: bool)
    returns (response: ErrorResponse)
    ensures acceptsHtml <==> response.RenderHtml?
    ensures response.RenderHtml? ==> response.status == response.view.statusCode && response.view.url == url
    ensures response.SendJson? ==> response.status == response.body.statusCode
    // status: the JWT failure wins, then a ServiceError's own status, then the first truthy
    // of statusCode and status, then 500
    ensures jwt.Some? ==> response.status == 401
    ensures jwt.None? && error.Service? ==> response.status == error.error.statusCode
    ensures jwt.None? && error.Other? && TruthyNumber(error.statusCode) ==> response.status == error.statusCode.value
    ensures jwt.None? && error.Other? && !TruthyNumber(error.statusCode) && TruthyNumber(error.status) ==>
              response.status == error.status.value
    ensures jwt.None? && error.Other? && !TruthyNumber(error.statusCode) && !TruthyNumber(error.status) ==>
              response.status == 500
    // code, message and details
    ensures var code := if response.RenderHtml? then response.view.code else response.body.code;
      && (jwt.Some? ==> code == "UNAUTHORIZED")
      && (jwt.None? && TruthyString(CodeOf(error)) ==> code == CodeOf(error).value)
      && (jwt.None? && !TruthyString(CodeOf(error)) ==> code == "INTERNAL_SERVER_ERROR")
    ensures var message := if response.RenderHtml? then response.view.message else response.body.message;
      message == if jwt.Some? then Some(jwt.value.message) else MessageOf(error)
    ensures var details := if response.RenderHtml? then response.view.details else response.body.details;
      details == if jwt.Some? then Json.SetMember(DetailsOf(error).GetOr([]), "jwtOriginalError",
                                     Json.Obj([("message", Json.Str(jwt.value.message))]))
                 else DetailsOf(error).GetOr([])
    // the stack is shown outside production, in both kinds of response
    ensures var stack := if response.RenderHtml? then response.view.stack else response.body.stack;
      stack == if nodeEnv != Some("production") then error.stack else None
  {
    var statusCode := if TruthyNumber(StatusCodeOf(error)) then StatusCodeOf(error).value
                      else if TruthyNumber(StatusOf(error)) then StatusOf(error).value
                      else 500;
    var body := ErrorBody(
      statusCode,
      if TruthyString(CodeOf(error)) then CodeOf(error).value else "INTERNAL_SERVER_ERROR",
      MessageOf(error),
      DetailsOf(error).GetOr([]),
      if nodeEnv != Some("production") then error.stack else None,
      url);

    if error.Service? {
      statusCode := error.error.statusCode;
      body := body.(statusCode := statusCode);
    }

    if jwt.Some? {
      statusCode := 401;
      body := body.(statusCode := 401, code := "UNAUTHORIZED", message := Some(jwt.value.message));
      body := body.(details := Json.SetMember(body.details, "jwtOriginalError",
                                              Json.Obj([("message", Json.Str(jwt.value.message))])));
    }

    if acceptsHtml {
      response := RenderHtml(statusCode, body);
    } else {
      response := SendJson(statusCode, JsonErrorBody(body.statusCode, body.code, body.message, body.details, body.stack));
    }
  }
}
