/**
  Properties of whole requests, across handlers: the responses the API gives
  for malformed ids, missing parents, repeated deletes, vote changes and
  query strings.
 */
module Endpoints {
  import opened Wrappers
  import opened Ordering
  import opened Schema
  import opened Rejections
  import opened Models
  import opened Controllers

  const BadRequestResponse := Response(400, Message("400 - Bad request"))

  /** A path id Postgres cannot read as an integer is a 400 on every `:id` route. */
  lemma NonIntegerIdIsBadRequest(db: Db, text: string, input: map<string, string>, now: nat, incVotes: Param)
    ensures GetSingleArticle(db, NonInteger(text)) == BadRequestResponse
    ensures GetComments(db, NonInteger(text)) == BadRequestResponse
    ensures PostComment(db, NonInteger(text), input, now) == Exchange(BadRequestResponse, db)
    ensures UpdateArticleVotes(db, NonInteger(text), incVotes) == Exchange(BadRequestResponse, db)
    ensures DeleteComment(db, NonInteger(text)) == Exchange(BadRequestResponse, db)
    ensures UpdateCommentVotes(db, NonInteger(text), incVotes) == Exchange(BadRequestResponse, db)
  {
  }

  /**
    Listing the comments of a missing article is a 404, although the comment
    query on its own returns no rows and no error.
   */
  lemma CommentsOfMissingArticle(db: Db, n: int)
    requires WellFormed(db)
    requires n !in db.articles
    ensures FetchComments(db, Integer(n)) == Ok([])
    ensures GetComments(db, Integer(n)) == Response(404, Message("Page not found"))
  {
    MissingArticleHasNoComments(db, n);
  }

  /** An existing article without comments lists as 200 with `[]`. */
  lemma CommentsOfQuietArticle(db: Db, n: int)
    requires n in db.articles
    requires CommentsOf(db, n) == {}
    ensures GetComments(db, Integer(n)) == Response(200, Wrapped("comments", CommentsPayload([])))
  {
  }

  /** The listed comments of an article come newest first. */
  lemma CommentsNewestFirst(db: Db, n: int)
    requires n in db.articles
    ensures GetComments(db, Integer(n)).body.Wrapped?
    ensures
      var cs := GetComments(db, Integer(n)).body.payload.comments;
      forall i, j :: 0 <= i < j < |cs| ==> cs[i].createdAt >= cs[j].createdAt
  {
  }

  /** Deleting a comment answers 204; deleting it again answers 404. */
  lemma DeleteCommentTwice(db: Db, id: int)
    requires id in db.comments
    ensures DeleteComment(db, Integer(id)).response == Response(204, NoContent)
    ensures
      var after := DeleteComment(db, Integer(id)).db;
      DeleteComment(after, Integer(id)) == Exchange(Response(404, Message("Page not found")), after)
  {
  }

  /** `inc_votes: 1` raises the stored and the returned votes by exactly one, even from a negative count. */
  lemma UpvoteArticle(db: Db, id: int)
    requires id in db.articles
    ensures
      var x := UpdateArticleVotes(db, Integer(id), Integer(1));
      && x.response.status == 200
      && x.db.articles[id].votes == db.articles[id].votes + 1
      && x.response.body.payload.article.votes == db.articles[id].votes + 1
  {
  }

  /** Votes are not clamped: a large negative delta goes below zero. */
  lemma VotesMayGoNegative(db: Db, id: int, delta: int)
    requires id in db.comments
    requires delta < -db.comments[id].votes
    ensures UpdateCommentVotes(db, Integer(id), Integer(delta)).response.body.payload.comment.votes < 0
  {
  }

  /** Only `topic`, `order` and `sort_by` are read from the query string; `limit` in particular is ignored. */
  lemma GetArticlesIgnoresOtherKeys(db: Db, query: map<string, string>, key: string, value: string)
    requires key != "topic" && key != "order" && key != "sort_by"
    ensures GetArticles(db, query[key := value]) == GetArticles(db, query)
  {
  }

  /** With no query string every article is listed, newest first. */
  lemma DefaultListing(db: Db)
    ensures GetArticles(db, map[]).status == 200
    ensures
      var rows := GetArticles(db, map[]).body.payload.rows;
      && |rows| == |db.articles|
      && (forall id :: id in db.articles ==> ListingRowOf(db, id) in rows)
      && (forall row :: multiset(rows)[row] == |ArticlesListedAs(db, db.articles.Keys, row)|)
      && forall i, j :: 0 <= i < j < |rows| ==> rows[i].createdAt >= rows[j].createdAt
  {
    var q: map<string, string> := map[];
    assert Lookup(q, "topic") == None && Lookup(q, "order") == None && Lookup(q, "sort_by") == None;
    var r := FetchArticles(db, None, None, None);
    assert GetArticles(db, q) == Response(200, Wrapped("articles", ListingPayload(r.value)));
    UnfilteredListing(db);
    NewestFirst(r.value);
  }

  lemma UnfilteredListing(db: Db)
    ensures FetchArticles(db, None, None, None).Ok?
    ensures
      var rows := FetchArticles(db, None, None, None).value;
      && |rows| == |db.articles|
      && (forall id :: id in db.articles ==> ListingRowOf(db, id) in rows)
      && (forall row :: multiset(rows)[row] == |ArticlesListedAs(db, db.articles.Keys, row)|)
      && SortedBy(rows, KeyOf(CreatedAt), Descending)
  {
    assert ArticlesMatching(db, None) == db.articles.Keys;
  }

  lemma NewestFirst(rows: seq<ListingRow>)
    requires SortedBy(rows, KeyOf(CreatedAt), Descending)
    ensures forall i, j :: 0 <= i < j < |rows| ==> rows[i].createdAt >= rows[j].createdAt
  {
  }

  /** Fields of the request body other than `body` and `username` never reach the stored comment. */
  lemma PostCommentIgnoresExtraFields(db: Db, articleId: Param, input: map<string, string>, key: string, value: string, now: nat)
    requires key != "body" && key != "username"
    ensures PostComment(db, articleId, input[key := value], now) == PostComment(db, articleId, input, now)
  {
  }
}
