# News API request layer — a Dafny model

This project models the decision-making part of a small Express/Postgres news
API (topics, articles, comments, users):

- the **model functions** of `models/models.js`, as pure functions over an
  immutable store (`Schema.Db`: topics as a set of slugs, users by username,
  articles and comments by id). Each returns `Ok(rows)` or `Err(error)`, where
  `error` is the JavaScript error object the promise would reject with: a
  Postgres error carrying a `code`, or an application rejection carrying
  `status` and either `message` or `msg`. Writing functions also return the
  store after the statement;
- the **error-handling chain** of `controllers/errors.controllers.js`, composed
  in the order `app.js` registers it (store codes, then custom rejections, then
  the catch-all), as a total function from error object to status and message;
- the **handlers** of `controllers/controllers.js`, as functions from the store
  and the raw request values to a status code and a response body.

Raw path and body values that Postgres binds to integer columns are
`Schema.Param`: either an integer or text Postgres refuses with code `22P02`.
Timestamps are natural numbers; the clock is the `now` parameter of
`AddComment`. `ORDER BY` is a stable insertion sort (`Ordering.SortBy`) by the
chosen column, with strings in code-point order.

Files: `wrappers.dfy` (Option), `ordering.dfy` (keys, collation, sort, ids in
order), `schema.dfy` (tables, well-formedness), `rejections.dfy` (error objects,
results), `models.dfy`, `model_properties.dfy`, `errors.dfy`, `controllers.dfy`,
`endpoints.dfy` (properties of whole requests).

The repository's own tests and its code disagree on pagination: the tests
(`__tests__/app.test.js`, lines 584-636) expect a default `limit` of 10 and
"Invalid Query" for a non-numeric `limit`, but `fetchArticles` takes no `limit`
parameter and `fetchComments` ignores its second argument. The model follows
the code: `Endpoints.GetArticlesIgnoresOtherKeys` proves that `limit` (like any
key other than `topic`, `order`, `sort_by`) has no effect.

## Model

| member | source | states |
|---|---|---|
| Models.FetchSingleArticle | models/models.js:10-22 | a non-integer id is a `22P02` store error; a missing id rejects `{404, msg: "Page not found"}`; otherwise the one row with that id and its comment count |
| Models.ParseOrder | models/models.js:38 | an `order` value is accepted exactly when it is on the allow-list; `asc`/`ASC` mean ascending and `desc`/`DESC` descending |
| Models.ParseColumn | models/models.js:39 | a `sort_by` value is accepted exactly when it is on the allow-list, and names the column it spells |
| Models.FetchArticles | models/models.js:37-67 | rejects "Invalid Query" (400) exactly when the defaulted `order` or `sort_by` is off the allow-list, before any topic check; an unknown truthy topic rejects "404- Topic Not Found"; otherwise the rows are exactly the (topic-filtered) articles without body, with their comment counts, each row occurring as many times as there are articles listing as it, ordered by the column in the direction |
| Models.ListingRowsCount | models/models.js:45-61 | grouping by article id lists each article once: over distinct ids, a row occurs exactly once per id whose row it is |
| Models.ColumnNameRoundTrip | models/models.js:39 | every column on the `sort_by` allow-list parses back from its own name to itself |
| ModelProperties.FetchArticlesDefaults | models/models.js:37 | an absent `order` and `sort_by` behave as `DESC` and `created_at` |
| ModelProperties.FetchArticlesOrderSpellings | models/models.js:38 | `asc` and `ASC` (and `desc` and `DESC`) give identical results |
| ModelProperties.FetchArticlesBlankTopic | models/models.js:51 | an empty topic is falsy: same result as no topic |
| ModelProperties.FetchArticlesTopicWithoutArticles | models/models.js:51-58 | an existing topic with no articles lists as `[]`, not an error |
| Models.FetchComments | models/models.js:69-78 | a non-integer id is a `22P02` error; otherwise exactly the comments on that article, each once, newest first, and never a not-found error |
| Models.AddComment | models/models.js:80-90 | non-integer article id gives `22P02`; a missing `body` or `username` gives `23502`; an unknown user or article gives `23503`; the insert succeeds exactly when the id is an integer, both fields are present and user and article exist, and then one new comment with that body, `username` as author, zero votes and the current time is added and nothing else changes |
| Models.AddCommentReadsOnlyBodyAndUsername | models/models.js:81 | two request bodies that agree on `body` and `username` post the same comment |
| Models.PatchArticleVotes | models/models.js:92-104 | non-integer delta or id gives `22P02`; a missing id rejects `{404, msg: "Page not found"}`; otherwise only that article's votes move by the delta, unclamped, and the updated row is returned |
| Models.RemoveComment | models/models.js:106-116 | non-integer id gives `22P02`; a missing id rejects `{404, msg: "Page not found"}`; otherwise exactly that comment is removed and nothing else changes |
| Models.FetchUsername | models/models.js:124-133 | an unknown username rejects `{404, message: "User not found."}`; otherwise the list of rows whose username matches, which has one element |
| Models.PatchCommentVotes | models/models.js:135-147 | as the article patch, but a missing id rejects `{404, message: "Comment ID not found"}` |
| ModelProperties.PatchArticleVotesUndo | models/models.js:95 | patching by `d` then `-d` restores the store and the row |
| ModelProperties.PatchArticleVotesCompose | models/models.js:95 | patching by `d1` then `d2` equals patching by `d1 + d2` |
| ModelProperties.PatchCommentVotesUndo | models/models.js:138 | patching a comment by `d` then `-d` restores the store and the row |
| ModelProperties.FetchAfterPatchArticleVotes | models/models.js:92-104 | after a patch the single-article fetch shows the moved votes and the same comment count |
| ModelProperties.RemoveCommentTwice | models/models.js:106-116 | deleting the same comment a second time rejects with the 404 rejection |
| ModelProperties.RemoveAfterAddComment | models/models.js:80-116 | deleting a freshly posted comment restores every table |
| ModelProperties.CommentCountAfterAdd | models/models.js:80-90 | posting raises the comment count of the comment's article by one and no other |
| ModelProperties.CommentCountAfterRemove | models/models.js:106-116 | deleting lowers the comment count of the comment's article by one and no other |
| Ordering.SortBy | models/models.js:55 | the ordered result is a permutation of the rows |
| Ordering.SortBySorted | models/models.js:61 | the ordered result is sorted by the key in the direction |
| ErrorHandlers.HandleInvalidPath | controllers/errors.controllers.js:1-3 | an unmatched route answers 404 "404 - Path not found", a reply distinct from every other reply of the chain |
| ErrorHandlers.HandlePsqlErrors | controllers/errors.controllers.js:5-13 | `22P02` and `23502` answer 400 "400 - Bad request", `23503` answers 404 "404 - Not Found", and exactly the other codes pass on |
| ErrorHandlers.HandleCustomErrors | controllers/errors.controllers.js:15-23 | a truthy status and message are answered with that status and that message; otherwise a status of 404 answers "Page not found"; exactly the remaining errors pass on |
| ErrorHandlers.HandleServerErrors | controllers/errors.controllers.js:25-27 | whatever reaches it answers 500 "500 - Internal server error" |
| ErrorHandlers.Classify | app.js:44-48 | `22P02`/`23502` give 400 "400 - Bad request" and `23503` gives 404 "404 - Not Found" whatever else the error holds; otherwise a truthy status and message are echoed; otherwise status 404 gives "Page not found" and anything else the catch-all 500 "500 - Internal server error" |
| ErrorHandlers.StoreCodeTakesPrecedence | app.js:44-46 | with a handled store code, `status` and `message` do not change the reply |
| ErrorHandlers.MsgIsNeverRead | controllers/errors.controllers.js:15-23 | the `msg` property never changes the reply |
| ErrorHandlers.MsgRejectionFallback | controllers/errors.controllers.js:18-21 | a `{status, msg}` rejection reads "Page not found" when the status is 404 and is a 500 otherwise |
| ErrorHandlers.ClassifyMatchesTable | controllers/errors.controllers.js:5-27 | every failure the models raise gets its documented status and literal message, never a 500 |
| Controllers.GetSingleArticle | controllers/controllers.js:28-35 | 200 `{article}` exactly for an existing id; 400 "400 - Bad request" or 404 "Page not found" otherwise; a rejection reaches the error chain unchanged (as in every handler below) |
| Controllers.GetArticles | controllers/controllers.js:37-44 | 200 `{articles}` exactly for a valid query and known or absent topic, carrying exactly the listing for the requested `topic`, `order` and `sort_by`; 400 "Invalid Query"; 404 "404- Topic Not Found"; rows match the topic |
| Controllers.GetComments | controllers/controllers.js:46-58 | 200 `{comments}` exactly when the article exists, carrying exactly the comment query's newest-first list; a missing article is 404 "Page not found"; a non-integer id is 400 |
| Controllers.GetCommentsSettlementOrder | controllers/controllers.js:50-53 | whenever the comment query fails, the article lookup fails with the same error, so the settlement order does not matter |
| Controllers.PostComment | controllers/controllers.js:60-69 | 201 `{postedComment}` with the stored row exactly when the id is an integer, `body` and `username` are present and the user and article exist; 400 or 404 with the store unchanged otherwise |
| Controllers.UpdateArticleVotes | controllers/controllers.js:71-79 | 200 with the row wrapped as `{article}` and only its votes moved; 400 or 404 "Page not found" with the store unchanged |
| Controllers.DeleteComment | controllers/controllers.js:81-88 | 204 with no body and exactly that comment removed; 400 or 404 "Page not found" with the store unchanged |
| Controllers.UpdateCommentVotes | controllers/controllers.js:107-115 | 200 with the row sent unwrapped and only its votes moved; 400 or 404 "Comment ID not found" |
| Controllers.GetUsername | controllers/controllers.js:98-105 | 200 `{user: [row]}` exactly for a known username; otherwise 404 "User not found." |
| Endpoints.NonIntegerIdIsBadRequest | controllers/errors.controllers.js:6-7 | every `:id` route answers a non-integer id with 400 "400 - Bad request" and leaves the store alone |
| Endpoints.CommentsOfMissingArticle | controllers/controllers.js:50-57 | for a missing article the comment query alone yields `[]`, yet the request is 404 "Page not found" |
| Endpoints.CommentsOfQuietArticle | __tests__/app.test.js:179-186 | an existing article without comments answers 200 with `[]` |
| Endpoints.CommentsNewestFirst | models/models.js:72 | listed comments are in descending `created_at` order |
| Endpoints.DeleteCommentTwice | controllers/controllers.js:81-88 | the first delete answers 204, the second 404 "Page not found" |
| Endpoints.UpvoteArticle | controllers/controllers.js:71-79 | `inc_votes: 1` raises stored and returned votes by exactly one |
| Endpoints.VotesMayGoNegative | models/models.js:138 | votes are not clamped at zero |
| Endpoints.GetArticlesIgnoresOtherKeys | controllers/controllers.js:37-39 | query keys other than `topic`, `order`, `sort_by` (including `limit`) change nothing |
| Endpoints.DefaultListing | models/models.js:37-67 | with no query string every article is listed, each row as often as articles list as it, newest first |
| Endpoints.PostCommentIgnoresExtraFields | controllers/controllers.js:60-69 | extra request-body fields never change the posted comment or the response |

## Left out

- Express setup, CORS, JSON body parsing and the route table (app.js:1-42) are plumbing; only the reply to an unmatched route and the error-chain order are modelled.
- SQL text, the connection module and Postgres itself are replaced by immutable tables; the 32-bit range of integer columns (an out-of-range id or vote total raises code `22003`, which the chain turns into a 500) is not modelled, so ids and votes are unbounded.
- `checkTopicExists` lives in `db/seeds/utils`, which is not part of this model; it is modelled as membership in the topic set, rejecting `{404, message: "404- Topic Not Found"}` as the tests expect.
- Pagination: the code takes no `limit` (see above), so none is modelled.
- `addArticle` and `addTopic` are imported by the handlers but not defined in the models file and have no routes, so `postArticle` and `postTopic` are not modelled.
- `getTopics`, `getEndpoints`, `getUsers`, `selectTopics` and `fetchUsers` are pass-throughs of whole tables or a static file (and `getEndpoints` logs); they are not modelled.
- The commented-out listing query (models/models.js:24-35) is dead code.
- The concurrency of `Promise.all` in `getComments`: the two queries are sequenced article-first; `Controllers.GetCommentsSettlementOrder` shows the outcome does not depend on the order.
- Collation: text columns are ordered by code point, not by the database's locale collation; rows with equal sort keys, whose order SQL leaves unspecified, come out in ascending id order.
- Text containing U+0000: Postgres refuses such a bound value with code `22021` on every route that binds a request string (a username, a comment body or author, an id in the path), and the chain answers 500 "500 - Internal server error"; request strings are taken to be free of U+0000, and such strings are not modelled.
- `comment_count` is returned by the driver as a decimal string; the model keeps it as a number.
- The text of a Postgres error message is not modelled; it is never sent, because store errors carry no `status`.
- The comment id sequence is advanced only by successful inserts; Postgres also consumes a value on an insert that then fails.
- A request body without `inc_votes` binds NULL, whose outcome depends on a NOT NULL constraint on `votes` in a schema that is not part of this model; such a request is not modelled.
- Request values are single strings: repeated query keys (which arrive as arrays) and JSON body values that are not strings (numbers, null, objects) are not modelled, except through `Schema.Param` for values bound to integer columns.
