/** The application's error type: a code, a message, an HTTP status and a details object.
    Factories fix the code and the status; the `is*` getters test the code. */
module ServiceErrors {
  import opened Wrappers
  import Json

  const NOT_FOUND: string := "NOT_FOUND"
  const VALIDATION_FAILED: string := "VALIDATION_FAILED"
  const UNAUTHORIZED: string := "UNAUTHORIZED"
  const FORBIDDEN: string := "FORBIDDEN"
  const BAD_REQUEST: string := "BAD_REQUEST"
  const VERIFICATION_REQUIRED: string := "VERIFICATION_REQUIRED"
  const RATE_LIMIT_EXCEEDED: string := "RATE_LIMIT_EXCEEDED"

  /** The fields are set once, by the constructor. `name` is the `Error.name` property. */
  datatype ServiceError = ServiceError(
    code: string,
    message: string,
    statusCode: int,
    details: Json.Members,
    name: string)

  /** The outcome of a route handler: a response, or a ServiceError passed on to the error handler. */
  datatype Reply<T> = Respond(status: int, body: T) | Raise(error: ServiceError)

  /** `new ServiceError(code, message, statusCode?, details?)`: an omitted status is 500 and
      omitted details are `{}`. */
  function New(code: string, message: string, statusCode: Option<int>, details: Option<Json.Members>): (e: ServiceError)
    ensures e.code == code && e.message == message && e.name == "ServiceError"
    ensures statusCode.None? ==> e.statusCode == 500
    ensures statusCode.Some? ==> e.statusCode == statusCode.value
    ensures details.None? ==> e.details == []
    ensures details.Some? ==> e.details == details.value
  {
    ServiceError(code, message, statusCode.GetOr(500), details.GetOr([]), "ServiceError")
  }

  // ---------------------------------------------------------------------------
  // The static factories
  // ---------------------------------------------------------------------------

  function NotFound(message: string, details: Option<Json.Members>): (e: ServiceError)
    ensures e.statusCode == 404 && IsNotFound(e) && e.message == message
    ensures e.details == details.GetOr([])
  {
    New(NOT_FOUND, message, Some(404), details)
  }

  /** The details of a not-found error about one record: `{ id }`. */
  function IdDetails(id: int): Json.Members {
    [("id", Json.Num(id))]
  }

  /** The answer of an update or delete route after the store call: nothing found is a 404
      NOT_FOUND naming the id; a found record is answered with the given status. */
  function NotFoundReply<T>(message: string, id: int, found: Option<T>, status: int): (r: Reply<T>)
    ensures found.None? <==> r.Raise?
    ensures r.Raise? ==> IsNotFound(r.error) && r.error.statusCode == 404
    ensures r.Raise? ==> r.error.message == message && r.error.details == IdDetails(id)
    ensures r.Respond? ==> r.status == status && Some(r.body) == found
  {
    match found
    case None => Raise(NotFound(message, Some(IdDetails(id))))
    case Some(v) => Respond(status, v)
  }

  function ValidationFailed(message: string, details: Option<Json.Members>): (e: ServiceError)
    ensures e.statusCode == 400 && IsValidationFailed(e) && e.message == message
    ensures e.details == details.GetOr([])
  {
    New(VALIDATION_FAILED, message, Some(400), details)
  }

  function Unauthorized(message: string, details: Option<Json.Members>): (e: ServiceError)
    ensures e.statusCode == 401 && IsUnauthorized(e) && e.message == message
    ensures e.details == details.GetOr([])
  {
    New(UNAUTHORIZED, message, Some(401), details)
  }

  function Forbidden(message: string, details: Option<Json.Members>): (e: ServiceError)
    ensures e.statusCode == 403 && IsForbidden(e) && e.message == message
    ensures e.details == details.GetOr([])
  {
    New(FORBIDDEN, message, Some(403), details)
  }

  function BadRequest(message: string, details: Option<Json.Members>): (e: ServiceError)
    ensures e.statusCode == 400 && IsBadRequest(e) && e.message == message
    ensures e.details == details.GetOr([])
  {
    New(BAD_REQUEST, message, Some(400), details)
  }

  function VerificationRequired(message: string, details: Option<Json.Members>): (e: ServiceError)
    ensures e.statusCode == 403 && IsVerificationRequired(e) && e.message == message
    ensures e.details == details.GetOr([])
  {
    New(VERIFICATION_REQUIRED, message, Some(403), details)
  }

  function RateLimitExceeded(message: string, details: Option<Json.Members>): (e: ServiceError)
    ensures e.statusCode == 429 && IsRateLimitExceeded(e) && e.message == message
    ensures e.details == details.GetOr([])
  {
    New(RATE_LIMIT_EXCEEDED, message, Some(429), details)
  }

  // ---------------------------------------------------------------------------
  // The getters
  // ---------------------------------------------------------------------------

  predicate IsNotFound(e: ServiceError) { e.code == NOT_FOUND }
  predicate IsValidationFailed(e: ServiceError) { e.code == VALIDATION_FAILED }
  predicate IsUnauthorized(e: ServiceError) { e.code == UNAUTHORIZED }
  predicate IsForbidden(e: ServiceError) { e.code == FORBIDDEN }
  predicate IsBadRequest(e: ServiceError) { e.code == BAD_REQUEST }
  predicate IsVerificationRequired(e: ServiceError) { e.code == VERIFICATION_REQUIRED }
  predicate IsRateLimitExceeded(e: ServiceError) { e.code == RATE_LIMIT_EXCEEDED }

  /** How many of the seven getters hold of `e`. */
  function GettersHolding(e: ServiceError): nat {
    (if IsNotFound(e) then 1 else 0) + (if IsValidationFailed(e) then 1 else 0)
    + (if IsUnauthorized(e) then 1 else 0) + (if IsForbidden(e) then 1 else 0)
    + (if IsBadRequest(e) then 1 else 0) + (if IsVerificationRequired(e) then 1 else 0)
    + (if IsRateLimitExceeded(e) then 1 else 0)
  }

  /** The getters are mutually exclusive: at most one holds of any error, and exactly one
      when the code is one of the seven constants. */
  lemma GettersExclusive(e: ServiceError)
    ensures GettersHolding(e) <= 1
    ensures GettersHolding(e) == 1 <==> e.code in KnownCodes()
  {
  }

  function KnownCodes(): set<string> {
    {NOT_FOUND, VALIDATION_FAILED, UNAUTHORIZED, FORBIDDEN, BAD_REQUEST, VERIFICATION_REQUIRED, RATE_LIMIT_EXCEEDED}
  }

  // ---------------------------------------------------------------------------
  // The mapping table, stated once over an enumeration of the factories
  // ---------------------------------------------------------------------------

  datatype Factory =
    | NotFoundFactory | ValidationFailedFactory | UnauthorizedFactory | ForbiddenFactory
    | BadRequestFactory | VerificationRequiredFactory | RateLimitExceededFactory

  /** Calls the factory `f`. */
  function Make(f: Factory, message: string, details: Option<Json.Members>): ServiceError {
    match f
    case NotFoundFactory => NotFound(message, details)
    case ValidationFailedFactory => ValidationFailed(message, details)
    case UnauthorizedFactory => Unauthorized(message, details)
    case ForbiddenFactory => Forbidden(message, details)
    case BadRequestFactory => BadRequest(message, details)
    case VerificationRequiredFactory => VerificationRequired(message, details)
    case RateLimitExceededFactory => RateLimitExceeded(message, details)
  }

  /** The getter that corresponds to the factory `f`. */
  predicate Is(f: Factory, e: ServiceError) {
    match f
    case NotFoundFactory => IsNotFound(e)
    case ValidationFailedFactory => IsValidationFailed(e)
    case UnauthorizedFactory => IsUnauthorized(e)
    case ForbiddenFactory => IsForbidden(e)
    case BadRequestFactory => IsBadRequest(e)
    case VerificationRequiredFactory => IsVerificationRequired(e)
    case RateLimitExceededFactory => IsRateLimitExceeded(e)
  }

  /** Recovers the factory from an error's code: the inverse of the factories' choice of code. */
  function FactoryOfCode(code: string): (f: Option<Factory>)
    ensures f.None? <==> code !in KnownCodes()
  {
    if code == NOT_FOUND then Some(NotFoundFactory)
    else if code == VALIDATION_FAILED then Some(ValidationFailedFactory)
    else if code == UNAUTHORIZED then Some(UnauthorizedFactory)
    else if code == FORBIDDEN then Some(ForbiddenFactory)
    else if code == BAD_REQUEST then Some(BadRequestFactory)
    else if code == VERIFICATION_REQUIRED then Some(VerificationRequiredFactory)
    else if code == RATE_LIMIT_EXCEEDED then Some(RateLimitExceededFactory)
    else None
  }

  /** An error built by factory `f` satisfies the getter of `f` and no other, carries the
      status of the table below, keeps the message, and defaults missing details to `{}`. */
  lemma FactoryTable(f: Factory, message: string, details: Option<Json.Members>)
    ensures var e := Make(f, message, details);
      && (forall g :: Is(g, e) <==> g == f)
      && GettersHolding(e) == 1
      && FactoryOfCode(e.code) == Some(f)
      && e.name == "ServiceError" && e.message == message
      && e.details == details.GetOr([])
      && e.statusCode == match f
         case NotFoundFactory => 404
         case ValidationFailedFactory => 400
         case UnauthorizedFactory => 401
         case ForbiddenFactory => 403
         case BadRequestFactory => 400
         case VerificationRequiredFactory => 403
         case RateLimitExceededFactory => 429
  {
    var e := Make(f, message, details);
    GettersExclusive(e);
    forall g ensures Is(g, e) <==> g == f {
      GettersExclusive(e);
    }
  }

  /** `validationFailed` and `badRequest` share status 400 but are told apart by their codes. */
  lemma ValidationFailedAndBadRequestDiffer(m1: string, d1: Option<Json.Members>, m2: string, d2: Option<Json.Members>)
    ensures ValidationFailed(m1, d1).statusCode == BadRequest(m2, d2).statusCode == 400
    ensures ValidationFailed(m1, d1).code != BadRequest(m2, d2).code
    ensures !IsBadRequest(ValidationFailed(m1, d1)) && !IsValidationFailed(BadRequest(m2, d2))
  {
  }
}
