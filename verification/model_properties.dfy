/**
  Properties that relate several calls of the model functions: defaults and
  equivalent query values of the listing, vote patches as a group action on the
  store, and the effect of posting and deleting comments on comment counts.
 */
module ModelProperties {
  import opened Wrappers
  import opened Schema
  import opened Rejections
  import opened Models

  // ---------------------------------------------------------------------------
  // Article listing

  /** An absent `order` means `DESC` and an absent `sort_by` means `created_at`. */
  lemma FetchArticlesDefaults(db: Db, topic: Option<string>)
    ensures FetchArticles(db, topic, None, None) == FetchArticles(db, topic, Some("DESC"), Some("created_at"))
  {
  }

  /** The allow-list admits both spellings of a direction, and they order alike. */
  lemma FetchArticlesOrderSpellings(db: Db, topic: Option<string>, sortBy: Option<string>)
    ensures FetchArticles(db, topic, Some("asc"), sortBy) == FetchArticles(db, topic, Some("ASC"), sortBy)
    ensures FetchArticles(db, topic, Some("desc"), sortBy) == FetchArticles(db, topic, Some("DESC"), sortBy)
  {
  }

  /** An empty `topic` is falsy: it neither filters nor is checked for existence. */
  lemma FetchArticlesBlankTopic(db: Db, order: Option<string>, sortBy: Option<string>)
    ensures FetchArticles(db, Some(""), order, sortBy) == FetchArticles(db, None, order, sortBy)
  {
  }

  /** A topic that exists but has no articles lists as `[]`, not as an error. */
  lemma FetchArticlesTopicWithoutArticles(
    db: Db, topic: string, order: Option<string>, sortBy: Option<string>)
    requires topic != "" && topic in db.topics
    requires forall id :: id in db.articles ==> db.articles[id].topic != topic
    requires ValidQuery(order, sortBy)
    ensures FetchArticles(db, Some(topic), order, sortBy) == Ok([])
  {
  }

  // ---------------------------------------------------------------------------
  // Vote patches

  /** Patching by `delta` and then by `-delta` gives back the original store and row. */
  lemma PatchArticleVotesUndo(db: Db, delta: int, id: int)
    requires id in db.articles
    ensures PatchArticleVotes(db, Integer(delta), Integer(id)).Ok?
    ensures
      var w := PatchArticleVotes(db, Integer(delta), Integer(id)).value;
      PatchArticleVotes(w.db, Integer(-delta), Integer(id)) == Ok(Written(db.articles[id], db))
  {
    var w := PatchArticleVotes(db, Integer(delta), Integer(id)).value;
    var back := PatchArticleVotes(w.db, Integer(-delta), Integer(id)).value;
    assert back.row == db.articles[id];
    assert back.db.articles == db.articles;
  }

  /** Two patches of one article add up. */
  lemma PatchArticleVotesCompose(db: Db, d1: int, d2: int, id: int)
    requires id in db.articles
    ensures PatchArticleVotes(db, Integer(d1), Integer(id)).Ok?
    ensures
      var w := PatchArticleVotes(db, Integer(d1), Integer(id)).value;
      PatchArticleVotes(w.db, Integer(d2), Integer(id)) == PatchArticleVotes(db, Integer(d1 + d2), Integer(id))
  {
    var w := PatchArticleVotes(db, Integer(d1), Integer(id)).value;
    var twice := PatchArticleVotes(w.db, Integer(d2), Integer(id)).value;
    var once := PatchArticleVotes(db, Integer(d1 + d2), Integer(id)).value;
    assert twice.row == once.row;
    assert twice.db.articles == once.db.articles;
  }

  /** Patching by `delta` and then by `-delta` gives back the original store and row. */
  lemma PatchCommentVotesUndo(db: Db, delta: int, id: int)
    requires id in db.comments
    ensures PatchCommentVotes(db, Integer(delta), Integer(id)).Ok?
    ensures
      var w := PatchCommentVotes(db, Integer(delta), Integer(id)).value;
      PatchCommentVotes(w.db, Integer(-delta), Integer(id)) == Ok(Written(db.comments[id], db))
  {
    var w := PatchCommentVotes(db, Integer(delta), Integer(id)).value;
    var back := PatchCommentVotes(w.db, Integer(-delta), Integer(id)).value;
    assert back.row == db.comments[id];
    assert back.db.comments == db.comments;
  }

  /** A patch is visible to the next fetch, and leaves the comment count alone. */
  lemma FetchAfterPatchArticleVotes(db: Db, delta: int, id: int)
    requires id in db.articles
    ensures PatchArticleVotes(db, Integer(delta), Integer(id)).Ok?
    ensures
      var w := PatchArticleVotes(db, Integer(delta), Integer(id)).value;
      && FetchSingleArticle(w.db, Integer(id)).Ok?
      && FetchSingleArticle(w.db, Integer(id)).value.article.votes == db.articles[id].votes + delta
      && FetchSingleArticle(w.db, Integer(id)).value.commentCount == CommentCount(db, id)
  {
  }

  // ---------------------------------------------------------------------------
  // Posting and deleting comments

  /** Deleting the same comment twice fails the second time with the 404 rejection. */
  lemma RemoveCommentTwice(db: Db, id: int)
    requires RemoveComment(db, Integer(id)).Ok?
    ensures RemoveComment(RemoveComment(db, Integer(id)).value, Integer(id)) == Err(PageNotFound)
  {
  }

  /** Deleting a freshly posted comment restores every table; only the id sequence has advanced. */
  lemma RemoveAfterAddComment(db: Db, articleId: Param, input: map<string, string>, now: nat)
    requires WellFormed(db)
    requires AddComment(db, articleId, input, now).Ok?
    ensures
      var w := AddComment(db, articleId, input, now).value;
      RemoveComment(w.db, Integer(w.row.commentId)) == Ok(db.(nextCommentId := db.nextCommentId + 1))
  {
    var w := AddComment(db, articleId, input, now).value;
    var after := RemoveComment(w.db, Integer(w.row.commentId)).value;
    assert after.comments == db.comments;
  }

  /** Posting a comment raises its article's `comment_count` by one and no other. */
  lemma CommentCountAfterAdd(
    db: Db, articleId: Param, input: map<string, string>, now: nat, other: int)
    requires WellFormed(db)
    requires AddComment(db, articleId, input, now).Ok?
    ensures
      var w := AddComment(db, articleId, input, now).value;
      CommentCount(w.db, other) == CommentCount(db, other) + (if other == w.row.articleId then 1 else 0)
  {
    var w := AddComment(db, articleId, input, now).value;
    var c := w.row;
    if other == c.articleId {
      assert CommentsOf(w.db, other) == CommentsOf(db, other) + {c.commentId};
      assert c.commentId !in CommentsOf(db, other);
    } else {
      assert CommentsOf(w.db, other) == CommentsOf(db, other);
    }
  }

  /** Deleting a comment lowers its article's `comment_count` by one and no other. */
  lemma CommentCountAfterRemove(db: Db, id: int, other: int)
    requires RemoveComment(db, Integer(id)).Ok?
    ensures
      var after := RemoveComment(db, Integer(id)).value;
      CommentCount(after, other) == CommentCount(db, other) - (if other == db.comments[id].articleId then 1 else 0)
  {
    var after := RemoveComment(db, Integer(id)).value;
    if other == db.comments[id].articleId {
      assert CommentsOf(db, other) == CommentsOf(after, other) + {id};
      assert id !in CommentsOf(after, other);
    } else {
      assert CommentsOf(after, other) == CommentsOf(db, other);
    }
  }
}
