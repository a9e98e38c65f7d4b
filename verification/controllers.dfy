/**
  The request handlers: each calls the model, wraps a success in its envelope
  with its status code, and passes any rejection unchanged to the error chain.
 */
module Controllers {
  import opened Wrappers
  import opened Schema
  import opened Rejections
  import opened Models
  import opened ErrorHandlers

  /** The data a successful response carries. */
  datatype Payload =
    | ArticleDetailPayload(detail: ArticleDetail)
    | ArticlePayload(article: Article)
    | ListingPayload(rows: seq<ListingRow>)
    | CommentsPayload(comments: seq<Comment>)
    | CommentPayload(comment: Comment)
    | UsersPayload(users: seq<User>)

  /** A response body: none, an error `{message}`, `{key: payload}`, or the payload itself. */
  datatype Body =
    | NoContent
    | Message(message: string)
    | Wrapped(key: string, payload: Payload)
    | Unwrapped(payload: Payload)

  datatype Response = Response(status: int, body: Body)

  /** A response together with the store after the request. */
  datatype Exchange = Exchange(response: Response, db: Db)

  /** What the error chain sends for a rejection passed to `next`. */
  function Failed(e: ErrorRecord): (r: Response)
    ensures r.body.Message?
  {
    var reply := Classify(e);
    Response(reply.status, Message(reply.message))
  }

  /** A query-string value, `undefined` when the key is absent. */
  function Lookup(query: map<string, string>, key: string): Option<string> {
    if key in query then Some(query[key]) else None
  }

  function GetSingleArticle(db: Db, articleId: Param): (r: Response)
    ensures r.status in {200, 400, 404}
    ensures r.status == 200 <==> articleId.Integer? && articleId.n in db.articles
    ensures r.status == 200 ==>
              r.body == Wrapped("article", ArticleDetailPayload(
                ArticleDetail(db.articles[articleId.n], CommentCount(db, articleId.n))))
    ensures articleId.NonInteger? ==> r == Response(400, Message("400 - Bad request"))
    ensures articleId.Integer? && articleId.n !in db.articles ==> r == Response(404, Message("Page not found"))
    ensures FetchSingleArticle(db, articleId).Err? ==> r == Failed(FetchSingleArticle(db, articleId).error)
  {
    match FetchSingleArticle(db, articleId)
    case Ok(article) => Response(200, Wrapped("article", ArticleDetailPayload(article)))
    case Err(e) => Failed(e)
  }

  /** Forwards `topic`, `order` and `sort_by` from the query string; any other key is ignored. */
  function GetArticles(db: Db, query: map<string, string>): (r: Response)
    ensures r.status in {200, 400, 404}
    ensures
      var topic, order, sortBy := Lookup(query, "topic"), Lookup(query, "order"), Lookup(query, "sort_by");
      && (!ValidQuery(order, sortBy) ==> r == Response(400, Message("Invalid Query")))
      && (ValidQuery(order, sortBy) && Truthy(topic) && topic.value !in db.topics
          ==> r == Response(404, Message("404- Topic Not Found")))
      && (r.status == 200 <==> ValidQuery(order, sortBy) && (Truthy(topic) ==> topic.value in db.topics))
      && (r.status == 200 ==> r.body.Wrapped? && r.body.key == "articles" && r.body.payload.ListingPayload?)
      && (r.status == 200 && Truthy(topic) ==> forall row :: row in r.body.payload.rows ==> row.topic == topic.value)
    ensures
      var result := FetchArticles(db, Lookup(query, "topic"), Lookup(query, "order"), Lookup(query, "sort_by"));
      && (result.Ok? ==> r == Response(200, Wrapped("articles", ListingPayload(result.value))))
      && (result.Err? ==> r == Failed(result.error))
  {
    match FetchArticles(db, Lookup(query, "topic"), Lookup(query, "order"), Lookup(query, "sort_by"))
    case Ok(articles) => Response(200, Wrapped("articles", ListingPayload(articles)))
    case Err(e) => Failed(e)
  }

  /**
    Succeeds only when both the article lookup and the comment query succeed.
    Both queries start together; the article lookup is taken first here, which
    `GetCommentsSettlementOrder` shows makes no difference.
   */
  function GetComments(db: Db, articleId: Param): (r: Response)
    ensures r.status in {200, 400, 404}
    ensures articleId.NonInteger? ==> r == Response(400, Message("400 - Bad request"))
    ensures articleId.Integer? && articleId.n !in db.articles ==> r == Response(404, Message("Page not found"))
    ensures r.status == 200 <==> articleId.Integer? && articleId.n in db.articles
    ensures r.status == 200 ==>
              && r.body.Wrapped? && r.body.key == "comments" && r.body.payload.CommentsPayload?
              && forall c :: c in r.body.payload.comments <==> IsCommentOn(db, c, articleId.n)
    ensures FetchSingleArticle(db, articleId).Ok? ==>
              r == Response(200, Wrapped("comments", CommentsPayload(FetchComments(db, articleId).value)))
    ensures FetchSingleArticle(db, articleId).Err? ==> r == Failed(FetchSingleArticle(db, articleId).error)
    ensures FetchComments(db, articleId).Err? ==> r == Failed(FetchComments(db, articleId).error)
  {
    match FetchSingleArticle(db, articleId)
    case Err(e) => Failed(e)
    case Ok(_) =>
      match FetchComments(db, articleId)
      case Err(e) => Failed(e)
      case Ok(comments) => Response(200, Wrapped("comments", CommentsPayload(comments)))
  }

  /** Whichever of the two queries settles first, a failure is the same failure. */
  lemma GetCommentsSettlementOrder(db: Db, articleId: Param)
    ensures FetchComments(db, articleId).Err? ==>
              FetchSingleArticle(db, articleId) == Err(FetchComments(db, articleId).error)
  {
  }

  function PostComment(db: Db, articleId: Param, input: map<string, string>, now: nat): (x: Exchange)
    ensures x.response.status in {201, 400, 404}
    ensures x.response.status == 201 <==> AddComment(db, articleId, input, now).Ok?
    ensures x.response.status == 201 <==>
              articleId.Integer? && "body" in input && "username" in input
              && input["username"] in db.users && articleId.n in db.articles
    ensures x.response.status == 201 ==>
              var w := AddComment(db, articleId, input, now).value;
              x.response.body == Wrapped("postedComment", CommentPayload(w.row)) && x.db == w.db
    ensures x.response.status != 201 ==> x.db == db
    ensures articleId.NonInteger? ==> x.response == Response(400, Message("400 - Bad request"))
    ensures articleId.Integer? && ("body" !in input || "username" !in input)
            ==> x.response == Response(400, Message("400 - Bad request"))
    ensures articleId.Integer? && "body" in input && "username" in input
            && (input["username"] !in db.users || articleId.n !in db.articles)
            ==> x.response == Response(404, Message("404 - Not Found"))
    ensures AddComment(db, articleId, input, now).Err? ==> x.response == Failed(AddComment(db, articleId, input, now).error)
  {
    match AddComment(db, articleId, input, now)
    case Ok(w) => Exchange(Response(201, Wrapped("postedComment", CommentPayload(w.row))), w.db)
    case Err(e) => Exchange(Failed(e), db)
  }

  function UpdateArticleVotes(db: Db, articleId: Param, incVotes: Param): (x: Exchange)
    ensures x.response.status in {200, 400, 404}
    ensures incVotes.NonInteger? || articleId.NonInteger? ==> x.response == Response(400, Message("400 - Bad request"))
    ensures incVotes.Integer? && articleId.Integer? && articleId.n !in db.articles
            ==> x.response == Response(404, Message("Page not found"))
    ensures x.response.status == 200 <==> incVotes.Integer? && articleId.Integer? && articleId.n in db.articles
    ensures x.response.status == 200 ==>
              && ArticleVotesMoved(db, x.db, articleId.n, incVotes.n)
              && x.response.body == Wrapped("article", ArticlePayload(x.db.articles[articleId.n]))
    ensures x.response.status != 200 ==> x.db == db
    ensures PatchArticleVotes(db, incVotes, articleId).Err? ==> x.response == Failed(PatchArticleVotes(db, incVotes, articleId).error)
  {
    match PatchArticleVotes(db, incVotes, articleId)
    case Ok(w) => Exchange(Response(200, Wrapped("article", ArticlePayload(w.row))), w.db)
    case Err(e) => Exchange(Failed(e), db)
  }

  function DeleteComment(db: Db, commentId: Param): (x: Exchange)
    ensures x.response.status in {204, 400, 404}
    ensures commentId.NonInteger? ==> x.response == Response(400, Message("400 - Bad request"))
    ensures commentId.Integer? && commentId.n !in db.comments ==> x.response == Response(404, Message("Page not found"))
    ensures x.response.status == 204 <==> commentId.Integer? && commentId.n in db.comments
    ensures x.response.status == 204 ==> x.response.body == NoContent && CommentRemoved(db, x.db, commentId.n)
    ensures x.response.status != 204 ==> x.db == db
    ensures RemoveComment(db, commentId).Err? ==> x.response == Failed(RemoveComment(db, commentId).error)
  {
    match RemoveComment(db, commentId)
    case Ok(after) => Exchange(Response(204, NoContent), after)
    case Err(e) => Exchange(Failed(e), db)
  }

  /** Unlike the article patch, the updated row is sent without an envelope. */
  function UpdateCommentVotes(db: Db, commentId: Param, incVotes: Param): (x: Exchange)
    ensures x.response.status in {200, 400, 404}
    ensures incVotes.NonInteger? || commentId.NonInteger? ==> x.response == Response(400, Message("400 - Bad request"))
    ensures incVotes.Integer? && commentId.Integer? && commentId.n !in db.comments
            ==> x.response == Response(404, Message("Comment ID not found"))
    ensures x.response.status == 200 <==> incVotes.Integer? && commentId.Integer? && commentId.n in db.comments
    ensures x.response.status == 200 ==>
              && CommentVotesMoved(db, x.db, commentId.n, incVotes.n)
              && x.response.body == Unwrapped(CommentPayload(x.db.comments[commentId.n]))
    ensures x.response.status != 200 ==> x.db == db
    ensures PatchCommentVotes(db, incVotes, commentId).Err? ==> x.response == Failed(PatchCommentVotes(db, incVotes, commentId).error)
  {
    match PatchCommentVotes(db, incVotes, commentId)
    case Ok(w) => Exchange(Response(200, Unwrapped(CommentPayload(w.row))), w.db)
    case Err(e) => Exchange(Failed(e), db)
  }

  function GetUsername(db: Db, username: string): (r: Response)
    ensures r.status in {200, 404}
    ensures r.status == 200 <==> username in db.users
    ensures r.status == 200 ==> r.body == Wrapped("user", UsersPayload([db.users[username]]))
    ensures username !in db.users ==> r == Response(404, Message("User not found."))
    ensures FetchUsername(db, username).Err? ==> r == Failed(FetchUsername(db, username).error)
  {
    match FetchUsername(db, username)
    case Ok(user) => Response(200, Wrapped("user", UsersPayload(user)))
    case Err(e) => Failed(e)
  }
}
