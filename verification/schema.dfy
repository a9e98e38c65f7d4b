/**
  The four tables of the news database, held as immutable values. Keys are the
  primary keys of the tables; `WellFormed` states the key and foreign-key
  constraints the store enforces.
 */
module Schema {

  /**
    A raw request value bound to an integer query parameter: Postgres either
    reads it as an integer or refuses it with code 22P02.
   */
  datatype Param = Integer(n: int) | NonInteger(text: string)

  datatype Article = Article(
    articleId: int,
    title: string,
    topic: string,
    author: string,
    body: string,
    createdAt: nat,
    votes: int,
    articleImgUrl: string)

  datatype Comment = Comment(
    commentId: int,
    body: string,
    articleId: int,
    author: string,
    votes: int,
    createdAt: nat)

  datatype User = User(username: string, name: string, avatarUrl: string)

  /**
    The store: topics by slug, users by username, articles and comments by id,
    and the next value of the comment id sequence.
   */
  datatype Db = Db(
    topics: set<string>,
    users: map<string, User>,
    articles: map<int, Article>,
    comments: map<int, Comment>,
    nextCommentId: int)

  /** Primary keys agree with the rows, foreign keys resolve, and the comment sequence is ahead of every id. */
  ghost predicate WellFormed(db: Db) {
    && (forall u :: u in db.users ==> db.users[u].username == u)
    && (forall id :: id in db.articles ==>
          && db.articles[id].articleId == id
          && db.articles[id].author in db.users
          && db.articles[id].topic in db.topics)
    && (forall id :: id in db.comments ==>
          && db.comments[id].commentId == id
          && db.comments[id].author in db.users
          && db.comments[id].articleId in db.articles
          && id < db.nextCommentId)
  }

  /** Ids of the comments on article `articleId`. */
  function CommentsOf(db: Db, articleId: int): set<int> {
    set id | id in db.comments && db.comments[id].articleId == articleId
  }

  /** The number of comments on one article; zero when it has none. */
  function CommentCount(db: Db, articleId: int): nat {
    |CommentsOf(db, articleId)|
  }

  /** In a well-formed store, an article that does not exist has no comments. */
  lemma MissingArticleHasNoComments(db: Db, articleId: int)
    requires WellFormed(db)
    requires articleId !in db.articles
    ensures CommentsOf(db, articleId) == {}
  {
    forall id | id in db.comments
      ensures db.comments[id].articleId != articleId
    {
      assert db.comments[id].articleId in db.articles;
    }
  }
}
