/**
  The error values that reach the error-handling middleware: Postgres errors,
  which carry a `code`, and the application's own rejection objects, which carry
  a `status` and either a `message` or a `msg`.
 */
module Rejections {
  import opened Wrappers

  /** A JavaScript error object, by the four properties the handlers can see. */
  datatype ErrorRecord = ErrorRecord(
    code: Option<string>,
    status: Option<int>,
    message: Option<string>,
    msg: Option<string>)

  /** JavaScript truthiness of an optional string (a query value, `err.message`): present and non-empty. */
  predicate Truthy(s: Option<string>) {
    s.Some? && s.value != ""
  }

  /** Postgres error codes (SQLSTATE) the handlers recognise. */
  const InvalidTextRepresentation := "22P02"
  const NotNullViolation := "23502"
  const ForeignKeyViolation := "23503"

  /** An error raised by the store. The server's own message text is not modelled. */
  function StoreError(code: string): ErrorRecord {
    ErrorRecord(Some(code), None, None, None)
  }

  /** A rejection `{status, message}`. */
  function WithMessage(status: int, message: string): ErrorRecord {
    ErrorRecord(None, Some(status), Some(message), None)
  }

  /** A rejection `{status, msg}`. */
  function WithMsg(status: int, msg: string): ErrorRecord {
    ErrorRecord(None, Some(status), None, Some(msg))
  }

  const InvalidQuery := WithMessage(400, "Invalid Query")
  const TopicNotFound := WithMessage(404, "404- Topic Not Found")
  const PageNotFound := WithMsg(404, "Page not found")
  const UserNotFound := WithMessage(404, "User not found.")
  const CommentIdNotFound := WithMessage(404, "Comment ID not found")

  /** A model result: rows, or the value the promise rejects with. */
  datatype Result<+T> = Ok(value: T) | Err(error: ErrorRecord)
}
