/** `src/lib/api-errors.ts`: the standard error and success bodies of the
    API routes. The clock reading is a parameter (`timestamp`). */
module ApiErrors {
  import opened Wrappers

  /** `ErrorCodes`. */
  datatype ErrorCode =
    | Unauthorized | Forbidden | NotFound | ValidationError | Conflict | RateLimit
    | InternalError | SnipeItError | BlockLimitExceeded | AssetUnavailable | ReservationExpired
  {
    function Value(): string {
      match this
      case Unauthorized => "UNAUTHORIZED"
      case Forbidden => "FORBIDDEN"
      case NotFound => "NOT_FOUND"
      case ValidationError => "VALIDATION_ERROR"
      case Conflict => "CONFLICT"
      case RateLimit => "RATE_LIMIT"
      case InternalError => "INTERNAL_ERROR"
      case SnipeItError => "SNIPE_IT_ERROR"
      case BlockLimitExceeded => "BLOCK_LIMIT_EXCEEDED"
      case AssetUnavailable => "ASSET_UNAVAILABLE"
      case ReservationExpired => "RESERVATION_EXPIRED"
    }
  }

  /** Distinct codes have distinct values. */
  lemma ErrorCodeValuesDistinct(a: ErrorCode, b: ErrorCode)
    requires a != b
    ensures a.Value() != b.Value()
  {
  }

  /** `details`, with values kept as text. */
  type Details = map<string, string>

  /** What a route may throw: an `ApiErrorResponse` (a subclass of
      `Error`), any other `Error`, or a value that is not an `Error`. */
  datatype Thrown =
    | ApiErrorResponse(statusCode: int, errorCode: string, message: string, details: Option<Details>)
    | PlainError(message: string)
    | NonError
  {
    /** `instanceof Error`. */
    predicate IsError() {
      ApiErrorResponse? || PlainError?
    }
  }

  /** The `ApiError` body. */
  datatype ApiError = ApiError(error: string, message: Option<string>, code: Option<string>, details: Option<Details>, timestamp: string)

  const UNKNOWN_MESSAGE := "An unknown error occurred"

  function CreateErrorResponse(thrown: Thrown, timestamp: string): (r: ApiError)
    ensures r.timestamp == timestamp && r.code.Some?
    ensures thrown.ApiErrorResponse? ==>
              r.error == thrown.errorCode && r.code == Some(thrown.errorCode) &&
              r.message == Some(thrown.message) && r.details == thrown.details
    ensures thrown.PlainError? ==>
              r.error == InternalError.Value() && r.code == Some(InternalError.Value()) &&
              r.message == Some(thrown.message) && r.details.None?
    ensures thrown.NonError? ==>
              r.error == "UNKNOWN_ERROR" && r.code == Some(InternalError.Value()) &&
              r.message == Some(UNKNOWN_MESSAGE) && r.details.None?
  {
    if thrown.ApiErrorResponse? then
      ApiError(thrown.errorCode, Some(thrown.message), Some(thrown.errorCode), thrown.details, timestamp)
    else if thrown.IsError() then
      ApiError("INTERNAL_ERROR", Some(thrown.message), Some(InternalError.Value()), None, timestamp)
    else
      ApiError("UNKNOWN_ERROR", Some(UNKNOWN_MESSAGE), Some(InternalError.Value()), None, timestamp)
  }

  /** An `ApiErrorResponse` is an `Error` too, but because it is tested
      first its own code wins over the generic INTERNAL_ERROR. */
  lemma ApiErrorKeepsItsCode(statusCode: int, code: ErrorCode, message: string, details: Option<Details>, timestamp: string)
    ensures ApiErrorResponse(statusCode, code.Value(), message, details).IsError()
    ensures (CreateErrorResponse(ApiErrorResponse(statusCode, code.Value(), message, details), timestamp).error == "INTERNAL_ERROR")
              <==> (code == InternalError)
  {
    if code != InternalError {
      ErrorCodeValuesDistinct(code, InternalError);
    }
  }

  /** `error` and `code` differ exactly for a thrown value that is not an
      `Error`. */
  lemma ErrorEqualsCodeIffError(thrown: Thrown, timestamp: string)
    ensures CreateErrorResponse(thrown, timestamp).code == Some(CreateErrorResponse(thrown, timestamp).error) <==> thrown.IsError()
  {
  }

  /** The `ApiSuccess` body. */
  datatype ApiSuccess<T> = ApiSuccess(success: bool, data: T, timestamp: string)

  function CreateSuccessResponse<T>(data: T, timestamp: string): (r: ApiSuccess<T>)
    ensures r.success && r.data == data && r.timestamp == timestamp
  {
    ApiSuccess(true, data, timestamp)
  }
}
