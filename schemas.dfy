/** The documents of the five collections (users, follows, posts, likes,
    comments), the in-memory state of the whole store, the response envelope
    and the two store queries the services rely on: "find" in natural order
    and "findOne". */
module Schemas {

  datatype Option<+T> = None | Some(value: T)

  datatype Result<+T, +E> = Success(value: T) | Failure(error: E)

  /** A document identifier. The store hands them out from a counter, so
      ascending order is insertion order. */
  type Id = nat

  /** A `Date` value; it is stored and returned, never inspected. */
  type Timestamp = int

  // HTTP status codes used by the services, the controller and the middleware.
  const OK := 200
  const BAD_REQUEST := 400
  const UNAUTHORIZED := 401
  const FORBIDDEN := 403
  const NOT_FOUND := 404
  const CONFLICT := 409
  const INTERNAL_SERVER_ERROR := 500

  /** A thrown `HttpException`: status and message. */
  datatype HttpError = HttpError(status: int, message: string)

  datatype User = User(
    email: string,
    username: string,
    password: string,            // the bcrypt hash, never the plaintext
    fullname: Option<string>,
    photo: Option<string>)

  /** A directed edge: `user_id` follows `follow`. */
  datatype Follow = Follow(user_id: Id, follow: Id)

  datatype Post = Post(
    user_id: Id,
    title: string,
    caption: string,
    photo: Option<string>,
    likes: int,
    comments: int,
    created_at: Timestamp,
    updated_at: Timestamp)

  datatype Like = Like(post_id: Id, liked_by: Id)

  datatype Comment = Comment(
    post_id: Id,
    commented_by: Id,
    comment: string,
    created_at: Timestamp,
    updated_at: Timestamp)

  /** The whole document store. Like and follow documents are identified by
      their contents, comments are kept in insertion order. */
  datatype Db = Db(
    users: map<Id, User>,
    follows: set<Follow>,
    posts: map<Id, Post>,
    likes: set<Like>,
    comments: seq<Comment>,
    nextId: nat)

  /** The store's case-insensitive `$regex` evaluation, a foreign call.
      `reject(pattern)` is the store's complaint about a pattern it cannot
      compile, or None when it compiles; `matches(title, pattern)` says
      whether a title matches a pattern that compiles. */
  datatype Regex = Regex(reject: string -> Option<string>, matches: (string, string) -> bool)

  // ---------------------------------------------------------------------
  // Response envelope
  // ---------------------------------------------------------------------

  datatype Meta = Meta(total: nat, page: int, last_page: nat)

  datatype PostDoc = PostDoc(id: Id, post: Post)

  datatype Data = NoData | LoginData(userID: Id, token: string) | PostList(docs: seq<PostDoc>)

  datatype Reply = Reply(statusCode: int, message: string, data: Data, meta: Option<Meta>)

  /** What a service call produces: the envelope, or the exception it throws. */
  type Response = Result<Reply, HttpError>

  /** The plain `{statusCode: 200, message}` envelope. */
  function Done(message: string): (r: Response)
    ensures r.Success? && r.value.statusCode == OK && r.value.data == NoData && r.value.meta == None
  {
    Success(Reply(OK, message, NoData, None))
  }

  // ---------------------------------------------------------------------
  // Store invariants
  // ---------------------------------------------------------------------

  /** Every identifier in use was handed out by the counter, so the next one
      is fresh. */
  ghost predicate WellFormed(db: Db) {
    && (forall id :: id in db.users ==> id < db.nextId)
    && (forall id :: id in db.posts ==> id < db.nextId)
    && (forall l :: l in db.likes ==> l.post_id < db.nextId)
    && (forall i :: 0 <= i < |db.comments| ==> db.comments[i].post_id < db.nextId)
  }

  /** No two accounts share an email, and no two share a username. */
  ghost predicate UniqueAccounts(users: map<Id, User>) {
    forall a, b :: a in users && b in users && a != b ==>
      users[a].email != users[b].email && users[a].username != users[b].username
  }

  /** The like rows of one post. */
  function LikesOf(likes: set<Like>, post: Id): (rows: set<Like>)
    ensures forall l :: l in rows <==> l in likes && l.post_id == post
  {
    set l | l in likes && l.post_id == post
  }

  /** The number of comment rows that reference `post`. */
  function CommentCount(comments: seq<Comment>, post: Id): nat {
    if comments == [] then 0
    else CommentCount(comments[..|comments| - 1], post)
         + (if comments[|comments| - 1].post_id == post then 1 else 0)
  }

  /** The `likes` and `comments` counters of every post agree with the rows
      that reference it. */
  ghost predicate CountersAgree(db: Db) {
    forall id :: id in db.posts ==>
      && db.posts[id].likes == |LikesOf(db.likes, id)|
      && db.posts[id].comments == CommentCount(db.comments, id)
  }

  ghost predicate Valid(db: Db) {
    WellFormed(db) && UniqueAccounts(db.users) && CountersAgree(db)
  }

  lemma {:induction false} CommentCountAppend(comments: seq<Comment>, c: Comment, post: Id)
    ensures CommentCount(comments + [c], post)
            == CommentCount(comments, post) + (if c.post_id == post then 1 else 0)
  {
    assert (comments + [c])[..|comments|] == comments;
  }

  /** A post id that no comment references has no comments. */
  lemma {:induction false} CommentCountUnreferenced(comments: seq<Comment>, post: Id)
    requires forall i :: 0 <= i < |comments| ==> comments[i].post_id != post
    ensures CommentCount(comments, post) == 0
  {
    if comments != [] {
      var front := comments[..|comments| - 1];
      assert forall i :: 0 <= i < |front| ==> front[i] == comments[i];
      CommentCountUnreferenced(front, post);
    }
  }

  // ---------------------------------------------------------------------
  // Queries
  // ---------------------------------------------------------------------

  /** The ids below `n` of the documents of `m` that satisfy `p`, in natural
      (ascending id) order: what `find(filter)` returns. */
  function Scan<T>(m: map<Id, T>, p: T -> bool, n: nat): (ids: seq<Id>)
    ensures forall i :: 0 <= i < |ids| ==> ids[i] < n && ids[i] in m && p(m[ids[i]])
    ensures forall k :: 0 <= k < n && k in m && p(m[k]) ==> k in ids
    ensures forall i, j :: 0 <= i < j < |ids| ==> ids[i] < ids[j]
  {
    if n == 0 then []
    else Scan(m, p, n - 1) + (if n - 1 in m && p(m[n - 1]) then [n - 1] else [])
  }

  /** `findOne(filter)`: the first document in natural order that satisfies
      `p`, if any. */
  function FindOne<T>(m: map<Id, T>, p: T -> bool, n: nat): (r: Option<Id>)
    ensures r.Some? ==> r.value < n && r.value in m && p(m[r.value])
    ensures r.Some? ==> forall k :: 0 <= k < r.value && k in m ==> !p(m[k])
    ensures r.None? ==> forall k :: 0 <= k < n && k in m ==> !p(m[k])
  {
    var ids := Scan(m, p, n);
    if |ids| == 0 then None
    else
      assert forall k :: 0 <= k < ids[0] && k in m && p(m[k]) ==> k in ids;
      Some(ids[0])
  }

  /** Under `WellFormed`, the first match exists exactly when some document
      matches. */
  lemma FindOneFindsAny<T>(m: map<Id, T>, p: T -> bool, n: nat)
    requires forall k :: k in m ==> k < n
    ensures FindOne(m, p, n).Some? <==> exists k :: k in m && p(m[k])
  {
  }
}
