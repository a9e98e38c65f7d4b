/**
  The query functions of the models layer, each a pure function from the store
  and the raw request values to rows or a rejection. Functions that write return
  the store after the statement.
 */
module Models {
  import opened Wrappers
  import opened Ordering
  import opened Schema
  import opened Rejections

  /** Rows returned by a writing statement (`RETURNING *`) and the store after it. */
  datatype Written<+T> = Written(row: T, db: Db)

  // ---------------------------------------------------------------------------
  // Single article

  /** `articles.*` with the aggregate `comment_count`. */
  datatype ArticleDetail = ArticleDetail(article: Article, commentCount: nat)

  function FetchSingleArticle(db: Db, articleId: Param): (r: Result<ArticleDetail>)
    ensures articleId.NonInteger? ==> r == Err(StoreError(InvalidTextRepresentation))
    ensures articleId.Integer? && articleId.n !in db.articles ==> r == Err(PageNotFound)
    ensures r.Ok? <==> articleId.Integer? && articleId.n in db.articles
    ensures r.Ok? ==> r.value.article == db.articles[articleId.n]
    ensures r.Ok? ==> r.value.commentCount == |CommentsOf(db, articleId.n)|
    ensures r.Ok? && WellFormed(db) ==> r.value.article.articleId == articleId.n
  {
    match articleId
    case NonInteger(_) => Err(StoreError(InvalidTextRepresentation))
    case Integer(id) =>
      if id in db.articles then Ok(ArticleDetail(db.articles[id], CommentCount(db, id)))
      else Err(PageNotFound)
  }

  // ---------------------------------------------------------------------------
  // Article listing

  /** The allow-lists the `order` and `sort_by` query values are checked against. */
  const ValidOrder: seq<string> := ["asc", "ASC", "desc", "DESC"]
  const ValidSortBy: seq<string> := ["title", "topic", "author", "created_at", "votes"]

  /** Defaults of the `order` and `sort_by` parameters. */
  const DefaultOrder := "DESC"
  const DefaultSortBy := "created_at"

  /** The columns an article listing may be ordered by. */
  datatype Column = Title | Topic | Author | CreatedAt | Votes

  function ColumnName(c: Column): string {
    match c
    case Title => "title"
    case Topic => "topic"
    case Author => "author"
    case CreatedAt => "created_at"
    case Votes => "votes"
  }

  /** The column a `sort_by` value names, if it is on the allow-list. */
  function ParseColumn(s: string): (r: Option<Column>)
    ensures r.Some? <==> s in ValidSortBy
    ensures r.Some? ==> ColumnName(r.value) == s
  {
    if s == "title" then Some(Title)
    else if s == "topic" then Some(Topic)
    else if s == "author" then Some(Author)
    else if s == "created_at" then Some(CreatedAt)
    else if s == "votes" then Some(Votes)
    else None
  }

  /** The direction an `order` value names, if it is on the allow-list. */
  function ParseOrder(s: string): (r: Option<Direction>)
    ensures r.Some? <==> s in ValidOrder
    ensures r == Some(Ascending) <==> s == "asc" || s == "ASC"
    ensures r == Some(Descending) <==> s == "desc" || s == "DESC"
  {
    if s == "asc" || s == "ASC" then Some(Ascending)
    else if s == "desc" || s == "DESC" then Some(Descending)
    else None
  }

  lemma ColumnNameRoundTrip(c: Column)
    ensures ParseColumn(ColumnName(c)) == Some(c)
  {
  }

  /** A listing row: the article without `body` (and without `article_id`), plus `comment_count`. */
  datatype ListingRow = ListingRow(
    title: string,
    topic: string,
    author: string,
    createdAt: nat,
    votes: int,
    articleImgUrl: string,
    commentCount: nat)

  function ListingRowOf(db: Db, id: int): ListingRow
    requires id in db.articles
  {
    var a := db.articles[id];
    ListingRow(a.title, a.topic, a.author, a.createdAt, a.votes, a.articleImgUrl, CommentCount(db, id))
  }

  function ColumnKey(c: Column, row: ListingRow): Key {
    match c
    case Title => Text(row.title)
    case Topic => Text(row.topic)
    case Author => Text(row.author)
    case CreatedAt => Number(row.createdAt)
    case Votes => Number(row.votes)
  }

  function KeyOf(c: Column): ListingRow -> Key {
    row => ColumnKey(c, row)
  }

  /** The topic filter the listing applies: only a truthy topic filters. */
  function TopicFilter(topic: Option<string>): Option<string> {
    if Truthy(topic) then topic else None
  }

  /** Ids of the articles a listing with `filter` selects. */
  function ArticlesMatching(db: Db, filter: Option<string>): (r: set<int>)
    ensures r <= db.articles.Keys
  {
    set id | id in db.articles && (filter.None? || db.articles[id].topic == filter.value)
  }

  /** Both allow-list checks pass, after the defaults are applied. */
  predicate ValidQuery(order: Option<string>, sortBy: Option<string>) {
    order.GetOr(DefaultOrder) in ValidOrder && sortBy.GetOr(DefaultSortBy) in ValidSortBy
  }

  function ListingRows(db: Db, ids: seq<int>): (r: seq<ListingRow>)
    requires forall i :: 0 <= i < |ids| ==> ids[i] in db.articles
    ensures |r| == |ids|
    ensures forall i :: 0 <= i < |ids| ==> r[i] == ListingRowOf(db, ids[i])
  {
    seq(|ids|, i requires 0 <= i < |ids| => ListingRowOf(db, ids[i]))
  }

  function FetchArticles(db: Db, topic: Option<string>, order: Option<string>, sortBy: Option<string>)
    : (r: Result<seq<ListingRow>>)
    ensures r == Err(InvalidQuery) <==> !ValidQuery(order, sortBy)
    ensures ValidQuery(order, sortBy) && Truthy(topic) && topic.value !in db.topics
            ==> r == Err(TopicNotFound)
    ensures r.Ok? <==> ValidQuery(order, sortBy) && (Truthy(topic) ==> topic.value in db.topics)
    ensures r.Ok? ==>
              var ids := ArticlesMatching(db, TopicFilter(topic));
              && |r.value| == |ids|
              && (forall id :: id in ids ==> ListingRowOf(db, id) in r.value)
              && (forall row :: row in r.value ==> exists id :: id in ids && row == ListingRowOf(db, id))
              && (forall row :: multiset(r.value)[row] == |ArticlesListedAs(db, ids, row)|)
    ensures r.Ok? && Truthy(topic) ==> forall row :: row in r.value ==> row.topic == topic.value
    ensures r.Ok? ==>
              var c := ParseColumn(sortBy.GetOr(DefaultSortBy));
              var d := ParseOrder(order.GetOr(DefaultOrder));
              c.Some? && d.Some? && SortedBy(r.value, KeyOf(c.value), d.value)
  {
    match (ParseOrder(order.GetOr(DefaultOrder)), ParseColumn(sortBy.GetOr(DefaultSortBy)))
    case (Some(d), Some(c)) =>
      if Truthy(topic) && topic.value !in db.topics then Err(TopicNotFound)
      else
        var matching := ArticlesMatching(db, TopicFilter(topic));
        var ids := IdsAscending(matching);
        var rows := ListingRows(db, ids);
        var sorted := SortBy(rows, KeyOf(c), d);
        SortBySorted(rows, KeyOf(c), d);
        ListingMembership(db, matching, ids, rows, sorted);
        Ok(sorted)
    case _ => Err(InvalidQuery)
  }

  /** The articles among `ids` whose listing row is `row`: identical rows of distinct articles each count. */
  ghost function ArticlesListedAs(db: Db, ids: set<int>, row: ListingRow): set<int>
    requires ids <= db.articles.Keys
  {
    set id | id in ids && ListingRowOf(db, id) == row
  }

  /**
    Listing distinct ids yields `row` once per id among `hits`, the ids listing as `row`.
   */
  lemma {:induction false} ListingRowsCount(ids: seq<int>, rows: seq<ListingRow>, row: ListingRow, hits: set<int>)
    requires forall i, j :: 0 <= i < j < |ids| ==> ids[i] != ids[j]
    requires |rows| == |ids|
    requires forall i :: 0 <= i < |ids| ==> (rows[i] == row <==> ids[i] in hits)
    ensures multiset(rows)[row] == |set id | id in ids && id in hits|
  {
    var all := set id | id in ids && id in hits;
    if ids == [] {
      assert all == {};
    } else {
      var t := ids[1..];
      ListingRowsCount(t, rows[1..], row, hits);
      var tail := set id | id in t && id in hits;
      assert rows == [rows[0]] + rows[1..];
      assert ids[0] !in t;
      if rows[0] == row {
        assert all == tail + {ids[0]};
      } else {
        assert all == tail;
      }
    }
  }

  lemma ListingMembership(db: Db, matching: set<int>, ids: seq<int>, rows: seq<ListingRow>, sorted: seq<ListingRow>)
    requires matching <= db.articles.Keys
    requires forall k :: k in ids <==> k in matching
    requires forall i :: 0 <= i < |ids| ==> ids[i] in db.articles
    requires rows == ListingRows(db, ids)
    requires forall i, j :: 0 <= i < j < |ids| ==> ids[i] < ids[j]
    requires multiset(sorted) == multiset(rows)
    ensures forall id :: id in matching ==> ListingRowOf(db, id) in sorted
    ensures forall row :: row in sorted ==> exists id :: id in matching && row == ListingRowOf(db, id)
    ensures forall row :: multiset(sorted)[row] == |ArticlesListedAs(db, matching, row)|
  {
    forall row
      ensures multiset(sorted)[row] == |ArticlesListedAs(db, matching, row)|
    {
      var hits := ArticlesListedAs(db, matching, row);
      ListingRowsCount(ids, rows, row, hits);
      assert (set id | id in ids && id in hits) == hits;
    }
    forall id | id in matching
      ensures ListingRowOf(db, id) in sorted
    {
      var i :| 0 <= i < |ids| && ids[i] == id;
      assert rows[i] == ListingRowOf(db, id);
      assert rows[i] in multiset(rows);
    }
    forall row | row in sorted
      ensures exists id :: id in matching && row == ListingRowOf(db, id)
    {
      assert row in multiset(sorted);
      assert row in rows;
      var i :| 0 <= i < |rows| && rows[i] == row;
      assert ids[i] in matching;
    }
  }

  // ---------------------------------------------------------------------------
  // Comments of an article

  /** `c` is a row of the comments table and belongs to article `n`. */
  ghost predicate IsCommentOn(db: Db, c: Comment, n: int) {
    c.articleId == n && exists k :: k in db.comments && db.comments[k] == c
  }

  function CreatedAtKey(c: Comment): Key {
    Number(c.createdAt)
  }

  function FetchComments(db: Db, articleId: Param): (r: Result<seq<Comment>>)
    ensures articleId.NonInteger? ==> r == Err(StoreError(InvalidTextRepresentation))
    ensures articleId.Integer? ==> r.Ok?
    ensures r.Ok? ==> |r.value| == |CommentsOf(db, articleId.n)|
    ensures r.Ok? ==> forall c :: c in r.value <==> IsCommentOn(db, c, articleId.n)
    ensures r.Ok? ==> SortedBy(r.value, CreatedAtKey, Descending)
  {
    match articleId
    case NonInteger(_) => Err(StoreError(InvalidTextRepresentation))
    case Integer(n) =>
      var mine := CommentsOf(db, n);
      var ids := IdsAscending(mine);
      var rows := seq(|ids|, i requires 0 <= i < |ids| => db.comments[ids[i]]);
      var sorted := SortBy(rows, CreatedAtKey, Descending);
      SortBySorted(rows, CreatedAtKey, Descending);
      CommentMembership(db, n, ids, rows, sorted);
      Ok(sorted)
  }

  lemma CommentMembership(db: Db, n: int, ids: seq<int>, rows: seq<Comment>, sorted: seq<Comment>)
    requires forall k :: k in CommentsOf(db, n) ==> k in ids
    requires forall i :: 0 <= i < |ids| ==> ids[i] in CommentsOf(db, n)
    requires |rows| == |ids|
    requires forall i :: 0 <= i < |ids| ==> ids[i] in db.comments && rows[i] == db.comments[ids[i]]
    requires multiset(sorted) == multiset(rows)
    ensures forall c :: c in sorted <==> IsCommentOn(db, c, n)
  {
    forall c | c in sorted
      ensures IsCommentOn(db, c, n)
    {
      assert c in multiset(sorted);
      assert c in rows;
      var i :| 0 <= i < |rows| && rows[i] == c;
      var k := ids[i];
      assert k in CommentsOf(db, n);
      assert k in db.comments && db.comments[k] == c;
    }
    forall c | IsCommentOn(db, c, n)
      ensures c in sorted
    {
      var k :| k in db.comments && db.comments[k] == c;
      assert k in CommentsOf(db, n);
      var i :| 0 <= i < |ids| && ids[i] == k;
      assert rows[i] == c;
      assert c in multiset(rows);
    }
  }

  // ---------------------------------------------------------------------------
  // Posting a comment

  /** `after` is `before` with the one comment `c` inserted and the id sequence advanced. */
  ghost predicate CommentAdded(before: Db, after: Db, c: Comment) {
    && after.topics == before.topics
    && after.users == before.users
    && after.articles == before.articles
    && after.comments.Keys == before.comments.Keys + {c.commentId}
    && after.comments[c.commentId] == c
    && (forall id :: id in before.comments && id != c.commentId ==> after.comments[id] == before.comments[id])
    && after.nextCommentId == before.nextCommentId + 1
  }

  /**
    Inserts a comment row taking its text from `body`, its author from `username`
    and its article from the path: only `body` and `username`
    are read from the request body; an absent one binds NULL.
   */
  function AddComment(db: Db, articleId: Param, input: map<string, string>, now: nat)
    : (r: Result<Written<Comment>>)
    ensures articleId.NonInteger? ==> r == Err(StoreError(InvalidTextRepresentation))
    ensures articleId.Integer? && ("body" !in input || "username" !in input)
            ==> r == Err(StoreError(NotNullViolation))
    ensures articleId.Integer? && "body" in input && "username" in input
            && (input["username"] !in db.users || articleId.n !in db.articles)
            ==> r == Err(StoreError(ForeignKeyViolation))
    ensures r.Ok? <==> articleId.Integer? && "body" in input && "username" in input
                       && input["username"] in db.users && articleId.n in db.articles
    ensures r.Ok? ==>
              var c := r.value.row;
              && c.body == input["body"]
              && c.author == input["username"]
              && c.articleId == articleId.n
              && c.votes == 0
              && c.createdAt == now
              && CommentAdded(db, r.value.db, c)
    ensures r.Ok? && WellFormed(db) ==> r.value.row.commentId !in db.comments && WellFormed(r.value.db)
  {
    match articleId
    case NonInteger(_) => Err(StoreError(InvalidTextRepresentation))
    case Integer(n) =>
      if "body" !in input || "username" !in input then Err(StoreError(NotNullViolation))
      else if input["username"] !in db.users || n !in db.articles then Err(StoreError(ForeignKeyViolation))
      else
        var c := Comment(db.nextCommentId, input["body"], n, input["username"], 0, now);
        Ok(Written(c, db.(comments := db.comments[c.commentId := c], nextCommentId := db.nextCommentId + 1)))
  }

  /** Two request bodies that agree on `body` and `username` post the same comment. */
  lemma AddCommentReadsOnlyBodyAndUsername(
    db: Db, articleId: Param, input1: map<string, string>, input2: map<string, string>, now: nat)
    requires ("body" in input1 <==> "body" in input2) && ("username" in input1 <==> "username" in input2)
    requires "body" in input1 ==> input1["body"] == input2["body"]
    requires "username" in input1 ==> input1["username"] == input2["username"]
    ensures AddComment(db, articleId, input1, now) == AddComment(db, articleId, input2, now)
  {
  }

  // ---------------------------------------------------------------------------
  // Vote patches

  /** `after` differs from `before` only in the votes of article `id`, which moved by `delta`. */
  ghost predicate ArticleVotesMoved(before: Db, after: Db, id: int, delta: int) {
    && id in before.articles
    && after.articles.Keys == before.articles.Keys
    && after.articles[id] == before.articles[id].(votes := before.articles[id].votes + delta)
    && (forall k :: k in before.articles && k != id ==> after.articles[k] == before.articles[k])
    && after.topics == before.topics
    && after.users == before.users
    && after.comments == before.comments
    && after.nextCommentId == before.nextCommentId
  }

  /** Adds the increment to the article's stored votes in place and returns the updated row. */
  function PatchArticleVotes(db: Db, incVotes: Param, articleId: Param): (r: Result<Written<Article>>)
    ensures incVotes.NonInteger? || articleId.NonInteger? ==> r == Err(StoreError(InvalidTextRepresentation))
    ensures incVotes.Integer? && articleId.Integer? && articleId.n !in db.articles ==> r == Err(PageNotFound)
    ensures r.Ok? <==> incVotes.Integer? && articleId.Integer? && articleId.n in db.articles
    ensures r.Ok? ==> ArticleVotesMoved(db, r.value.db, articleId.n, incVotes.n)
    ensures r.Ok? ==> r.value.row == r.value.db.articles[articleId.n]
    ensures r.Ok? && WellFormed(db) ==> WellFormed(r.value.db)
  {
    match (incVotes, articleId)
    case (Integer(delta), Integer(id)) =>
      if id !in db.articles then Err(PageNotFound)
      else
        var a := db.articles[id];
        var a' := a.(votes := a.votes + delta);
        Ok(Written(a', db.(articles := db.articles[id := a'])))
    case _ => Err(StoreError(InvalidTextRepresentation))
  }

  /** `after` differs from `before` only in the votes of comment `id`, which moved by `delta`. */
  ghost predicate CommentVotesMoved(before: Db, after: Db, id: int, delta: int) {
    && id in before.comments
    && after.comments.Keys == before.comments.Keys
    && after.comments[id] == before.comments[id].(votes := before.comments[id].votes + delta)
    && (forall k :: k in before.comments && k != id ==> after.comments[k] == before.comments[k])
    && after.topics == before.topics
    && after.users == before.users
    && after.articles == before.articles
    && after.nextCommentId == before.nextCommentId
  }

  /** Adds the increment to the comment's stored votes in place and returns the updated row. */
  function PatchCommentVotes(db: Db, incVotes: Param, commentId: Param): (r: Result<Written<Comment>>)
    ensures incVotes.NonInteger? || commentId.NonInteger? ==> r == Err(StoreError(InvalidTextRepresentation))
    ensures incVotes.Integer? && commentId.Integer? && commentId.n !in db.comments ==> r == Err(CommentIdNotFound)
    ensures r.Ok? <==> incVotes.Integer? && commentId.Integer? && commentId.n in db.comments
    ensures r.Ok? ==> CommentVotesMoved(db, r.value.db, commentId.n, incVotes.n)
    ensures r.Ok? ==> r.value.row == r.value.db.comments[commentId.n]
    ensures r.Ok? && WellFormed(db) ==> WellFormed(r.value.db)
  {
    match (incVotes, commentId)
    case (Integer(delta), Integer(id)) =>
      if id !in db.comments then Err(CommentIdNotFound)
      else
        var c := db.comments[id];
        var c' := c.(votes := c.votes + delta);
        Ok(Written(c', db.(comments := db.comments[id := c'])))
    case _ => Err(StoreError(InvalidTextRepresentation))
  }

  // ---------------------------------------------------------------------------
  // Deleting a comment

  /** `after` is `before` without comment `id`; nothing else changes. */
  ghost predicate CommentRemoved(before: Db, after: Db, id: int) {
    && id in before.comments
    && after.comments.Keys == before.comments.Keys - {id}
    && (forall k :: k in after.comments ==> after.comments[k] == before.comments[k])
    && after.topics == before.topics
    && after.users == before.users
    && after.articles == before.articles
    && after.nextCommentId == before.nextCommentId
  }

  /** Deletes the comment with that id, rejecting when no row was deleted; resolves with no value. */
  function RemoveComment(db: Db, commentId: Param): (r: Result<Db>)
    ensures commentId.NonInteger? ==> r == Err(StoreError(InvalidTextRepresentation))
    ensures commentId.Integer? && commentId.n !in db.comments ==> r == Err(PageNotFound)
    ensures r.Ok? <==> commentId.Integer? && commentId.n in db.comments
    ensures r.Ok? ==> commentId.Integer? && CommentRemoved(db, r.value, commentId.n)
    ensures r.Ok? && WellFormed(db) ==> WellFormed(r.value)
  {
    match commentId
    case NonInteger(_) => Err(StoreError(InvalidTextRepresentation))
    case Integer(id) =>
      if id !in db.comments then Err(PageNotFound)
      else Ok(db.(comments := db.comments - {id}))
  }

  // ---------------------------------------------------------------------------
  // Users

  /** `u` is a row of the users table whose username is `username`. */
  ghost predicate IsUserNamed(db: Db, u: User, username: string) {
    u.username == username && exists k :: k in db.users && db.users[k] == u
  }

  /** The users whose username matches, rejecting when there are none. */
  function FetchUsername(db: Db, username: string): (r: Result<seq<User>>)
    ensures username !in db.users ==> r == Err(UserNotFound)
    ensures r.Ok? ==> |r.value| == 1
    ensures r.Ok? && WellFormed(db) ==> forall u :: u in r.value <==> IsUserNamed(db, u, username)
    ensures WellFormed(db) ==> (r.Ok? <==> exists u :: IsUserNamed(db, u, username))
  {
    if username in db.users then
      assert WellFormed(db) ==> IsUserNamed(db, db.users[username], username);
      Ok([db.users[username]])
    else
      Err(UserNotFound)
  }
}
