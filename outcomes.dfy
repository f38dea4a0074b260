/**
 * Values shared by the whole pipeline: an optional value, the errors the
 * pipeline throws, a result that carries either a value or one of those
 * errors, and the meaning of a "successful" HTTP status.
 */
module Outcomes {

  datatype Option<+T> = None | Some(value: T)

  /** One constructor per `throw new Error(...)` site of the pipeline. */
  datatype Failure =
    | CatalogFetchFailed   // the identifier catalog could not be fetched
    | TooManyIds           // a metadata request was asked for more than 100 ids
    | MetadataFetchFailed  // the metadata endpoint answered with a failure status

  /** The message each thrown `Error` carries. */
  function Message(f: Failure): string
  {
    match f
    case CatalogFetchFailed => "Cannot get cryptocurrency ids"
    case TooManyIds => "Cannot fetch more than 100 tokens at once"
    case MetadataFetchFailed => "Cannot get cryptocurrency metadata"
  }

  /** A call either returns a value or throws one of the errors above. */
  datatype Result<+T> = Ok(value: T) | Err(error: Failure)

  /** `Response.ok` of the Fetch standard: the status lies in 200-299. */
  predicate IsOkStatus(status: int)
  {
    200 <= status <= 299
  }
}
