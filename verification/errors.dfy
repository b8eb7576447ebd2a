/** The error bodies the two product endpoints raise. */
module Errors {

  /** The `code` of a 400 response from the listing endpoint:
      `INVALID_RANGE` or `INVALID_PARAM`. */
  datatype ErrorCode = InvalidRange | InvalidParam

  /** `BadRequest` is the structured `{code, message, field}` detail of a
      400; `NotFound` is the plain detail of the lookup's 404. */
  datatype ApiError =
    | BadRequest(code: ErrorCode, message: string, field: string)
    | NotFound(detail: string)
}
