/**
  The error-handling middleware: three handlers tried in the order the
  application registers them (store codes, then custom rejections, then the
  catch-all), plus the handler for unmatched routes.
 */
module ErrorHandlers {
  import opened Wrappers
  import opened Rejections

  /** The status code and the `message` property of an error response. */
  datatype Reply = Reply(status: int, message: string)

  const PathNotFound := Reply(404, "404 - Path not found")
  const BadRequest := Reply(400, "400 - Bad request")
  const NotFound := Reply(404, "404 - Not Found")
  const PageNotFoundReply := Reply(404, "Page not found")
  const ServerError := Reply(500, "500 - Internal server error")

  /** The reply to a request that no route matched; no error value is involved. */
  function HandleInvalidPath(): (r: Reply)
    ensures r == Reply(404, "404 - Path not found")
    ensures r != BadRequest && r != NotFound && r != PageNotFoundReply && r != ServerError
  {
    PathNotFound
  }

  /** JavaScript truthiness of `err.status`: present and non-zero. */
  predicate TruthyStatus(s: Option<int>) {
    s.Some? && s.value != 0
  }

  /** The codes the store-error handler answers. */
  predicate IsHandledCode(code: Option<string>) {
    code == Some(InvalidTextRepresentation) || code == Some(NotNullViolation) || code == Some(ForeignKeyViolation)
  }

  /** Store errors by code; `None` means `next(err)`: the error passes on unchanged. */
  function HandlePsqlErrors(e: ErrorRecord): (r: Option<Reply>)
    ensures r.None? <==> !IsHandledCode(e.code)
    ensures e.code == Some(InvalidTextRepresentation) || e.code == Some(NotNullViolation)
            ==> r == Some(Reply(400, "400 - Bad request"))
    ensures e.code == Some(ForeignKeyViolation) ==> r == Some(Reply(404, "404 - Not Found"))
  {
    if e.code == Some(InvalidTextRepresentation) || e.code == Some(NotNullViolation) then Some(BadRequest)
    else if e.code == Some(ForeignKeyViolation) then Some(NotFound)
    else None
  }

  /** Rejections carrying a status; `None` means `next(err)`. The `msg` property is never read. */
  function HandleCustomErrors(e: ErrorRecord): (r: Option<Reply>)
    ensures r.None? <==> !(TruthyStatus(e.status) && Truthy(e.message)) && e.status != Some(404)
    ensures TruthyStatus(e.status) && Truthy(e.message)
            ==> r == Some(Reply(e.status.value, e.message.value))
    ensures !(TruthyStatus(e.status) && Truthy(e.message)) && e.status == Some(404)
            ==> r == Some(Reply(404, "Page not found"))
  {
    if TruthyStatus(e.status) && Truthy(e.message) then Some(Reply(e.status.value, e.message.value))
    else if e.status == Some(404) then Some(PageNotFoundReply)
    else None
  }

  /** The last handler answers everything that reaches it. */
  function HandleServerErrors(e: ErrorRecord): (r: Reply)
    ensures r == Reply(500, "500 - Internal server error")
  {
    ServerError
  }

  /** The chain as registered: store codes, then custom rejections, then the catch-all. */
  function Classify(e: ErrorRecord): (r: Reply)
    ensures e.code == Some(InvalidTextRepresentation) || e.code == Some(NotNullViolation)
            ==> r == Reply(400, "400 - Bad request")
    ensures e.code == Some(ForeignKeyViolation) ==> r == Reply(404, "404 - Not Found")
    ensures !IsHandledCode(e.code) && TruthyStatus(e.status) && Truthy(e.message)
            ==> r == Reply(e.status.value, e.message.value)
    ensures r.status in {400, 404, 500} || (TruthyStatus(e.status) && Truthy(e.message))
    ensures !IsHandledCode(e.code) && !(TruthyStatus(e.status) && Truthy(e.message))
            ==> r == (if e.status == Some(404) then Reply(404, "Page not found")
                      else Reply(500, "500 - Internal server error"))
  {
    match HandlePsqlErrors(e)
    case Some(reply) => reply
    case None =>
      match HandleCustomErrors(e)
      case Some(reply) => reply
      case None => HandleServerErrors(e)
  }

  /** A recognised store code decides the reply whatever `status` and `message` say. */
  lemma StoreCodeTakesPrecedence(e: ErrorRecord, status: Option<int>, message: Option<string>)
    requires IsHandledCode(e.code)
    ensures Classify(e.(status := status, message := message)) == Classify(e)
  {
  }

  /** The `msg` property never influences the reply. */
  lemma MsgIsNeverRead(e: ErrorRecord, msg: Option<string>)
    ensures Classify(e.(msg := msg)) == Classify(e)
  {
  }

  /**
    A `{status, msg}` rejection reaches the client only through the 404 fallback:
    with status 404 it reads "Page not found" whatever its text, otherwise it is a 500.
   */
  lemma MsgRejectionFallback(status: int, msg: string)
    ensures status == 404 ==> Classify(WithMsg(status, msg)) == PageNotFoundReply
    ensures status != 404 ==> Classify(WithMsg(status, msg)) == ServerError
  {
  }

  /** The failures the models produce, one per row of the error table. */
  datatype Failure =
    | MalformedInteger
    | MissingRequiredValue
    | UnknownReference
    | BadListingQuery
    | UnknownTopic
    | MissingRow
    | UnknownUser
    | UnknownComment

  /** The error value each failure is raised as. */
  function Raised(f: Failure): ErrorRecord {
    match f
    case MalformedInteger => StoreError(InvalidTextRepresentation)
    case MissingRequiredValue => StoreError(NotNullViolation)
    case UnknownReference => StoreError(ForeignKeyViolation)
    case BadListingQuery => InvalidQuery
    case UnknownTopic => TopicNotFound
    case MissingRow => PageNotFound
    case UnknownUser => UserNotFound
    case UnknownComment => CommentIdNotFound
  }

  /** The documented reply to each failure. */
  function Documented(f: Failure): Reply {
    match f
    case MalformedInteger => Reply(400, "400 - Bad request")
    case MissingRequiredValue => Reply(400, "400 - Bad request")
    case UnknownReference => Reply(404, "404 - Not Found")
    case BadListingQuery => Reply(400, "Invalid Query")
    case UnknownTopic => Reply(404, "404- Topic Not Found")
    case MissingRow => Reply(404, "Page not found")
    case UnknownUser => Reply(404, "User not found.")
    case UnknownComment => Reply(404, "Comment ID not found")
  }

  /** The chain answers every failure with its documented reply, none of them a 500 or the unmatched-route reply. */
  lemma ClassifyMatchesTable(f: Failure)
    ensures Classify(Raised(f)) == Documented(f)
    ensures Classify(Raised(f)) != ServerError && Classify(Raised(f)) != HandleInvalidPath()
  {
  }
}
