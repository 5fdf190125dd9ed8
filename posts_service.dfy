/** `PostsService`: the post, like, comment and listing endpoints, issuing one
    store query or write at a time. Each state-changing method is proved to
    produce the response and the new store that the matching function of
    PostsLogic describes, and to keep the store invariant; the two listing
    methods change nothing and return what MineFeed and FollowFeed describe. */
module Posts {
  import opened Schemas
  import opened PostsLogic
  import opened Database

  class PostsService {
    const db: Store

    constructor (db: Store)
      ensures this.db == db
    {
      this.db := db;
    }

    /** `create`; `now` is the creation time. */
    method Create(dto: CreatePostDto, userID: Id, now: Timestamp) returns (r: Response)
      requires db.Valid()
      modifies db
      ensures db.Valid()
      ensures (r, db.State()) == CreatePost(old(db.State()), dto, userID, now)
    {
      CreatePostPreservesValid(db.State(), dto, userID, now);
      if userID !in db.users {
        return Failure(AuthorNotFound);
      }
      var post := Post(userID, dto.title, dto.caption, None, 0, 0, now, now);
      var _ := db.SavePost(post);
      r := Done("Post successfully created");
    }

    /** `update`; `now` becomes the post's `updated_at`. */
    method Update(id: Id, userID: Id, dto: UpdatePostDto, now: Timestamp) returns (r: Response)
      requires db.Valid()
      modifies db
      ensures db.Valid()
      ensures (r, db.State()) == UpdatePost(old(db.State()), id, userID, dto, now)
    {
      UpdatePostPreservesValid(db.State(), id, userID, dto, now);
      if id !in db.posts {
        return Failure(PostNotFound);
      }
      if db.posts[id].user_id != userID {
        return Failure(NotOwnerOfUpdate);
      }
      var _ := db.FindPostByIdAndUpdate(id,
        (p: Post) => p.(title := dto.title, caption := dto.caption, updated_at := now));
      r := Done("Post successfully updated");
    }

    /** `delete`. */
    method Delete(id: Id, userID: Id) returns (r: Response)
      requires db.Valid()
      modifies db
      ensures db.Valid()
      ensures (r, db.State()) == DeletePost(old(db.State()), id, userID)
    {
      DeletePostPreservesValid(db.State(), id, userID);
      if id !in db.posts {
        return Failure(PostNotFound);
      }
      if db.posts[id].user_id != userID {
        return Failure(NotOwnerOfDelete);
      }
      var _ := db.FindPostByIdAndDelete(id);
      r := Done("Post successfully deleted");
    }

    /** `like`: the counter is written first, then the like row. */
    method Like(id: Id, userID: Id) returns (r: Response)
      requires db.Valid()
      modifies db
      ensures db.Valid()
      ensures (r, db.State()) == LikePost(old(db.State()), id, userID)
    {
      LikePostPreservesValid(db.State(), id, userID);
      if id !in db.posts {
        return Failure(PostNotFound);
      }
      var post := db.posts[id];
      var row := Schemas.Like(id, userID);
      if row in db.likes {
        return Failure(AlreadyLiked);
      }
      var _ := db.FindPostByIdAndUpdate(id, (p: Post) => p.(likes := post.likes + 1));
      db.SaveLike(row);
      r := Done("Success");
    }

    /** `unlike`: the like row is deleted first, then the counter written. */
    method Unlike(id: Id, userID: Id) returns (r: Response)
      requires db.Valid()
      modifies db
      ensures db.Valid()
      ensures (r, db.State()) == UnlikePost(old(db.State()), id, userID)
    {
      UnlikePostPreservesValid(db.State(), id, userID);
      if id !in db.posts {
        return Failure(PostNotFound);
      }
      var post := db.posts[id];
      var unliked := db.FindOneLikeAndDelete(Schemas.Like(id, userID));
      if !unliked {
        assert db.likes == old(db.likes);
        return Failure(AlreadyUnliked);
      }
      var _ := db.FindPostByIdAndUpdate(id, (p: Post) => p.(likes := post.likes - 1));
      r := Done("Success");
    }

    /** `comment`; `now` stamps the new comment row. */
    method Comment(id: Id, userID: Id, dto: CreateCommentDto, now: Timestamp) returns (r: Response)
      requires db.Valid()
      modifies db
      ensures db.Valid()
      ensures (r, db.State()) == CommentPost(old(db.State()), id, userID, dto, now)
    {
      CommentPostPreservesValid(db.State(), id, userID, dto, now);
      if id !in db.posts {
        return Failure(PostNotFound);
      }
      var post := db.posts[id];
      var _ := db.FindPostByIdAndUpdate(id, (p: Post) => p.(comments := post.comments + 1));
      db.SaveComment(Schemas.Comment(id, userID, dto.comment, now, now));
      r := Done("Success");
    }

    /** The page arithmetic and the two store queries shared by the listing
      endpoints; the store refuses a negative offset or a search pattern
      that does not compile. */
    method FindPage(filter: Filter, query: Query) returns (r: Response)
      ensures r == Listing(db.State(), filter, query, db.regex)
    {
      var skip := 0;
      var page := DefaultPage;
      var limit: Limit := DefaultLimit;
      if query.limit.Some? {
        limit := query.limit.value;
      }
      if query.page.Some? {
        page := query.page.value;
        skip := (page - 1) * limit;
      }
      if skip < 0 {
        return Failure(HttpError(INTERNAL_SERVER_ERROR, NegativeSkipMessage));
      }
      if filter.title.Some? {
        var complaint := db.regex.reject(filter.title.value);
        if complaint.Some? {
          return Failure(HttpError(INTERNAL_SERVER_ERROR, complaint.value));
        }
      }
      var found := Found(db.State(), filter, db.regex);
      var data := Window(found, skip, limit);
      var total := |found|;
      r := Success(Reply(OK, "Success", PostList(data), Some(Meta(total, page, LastPage(total, limit)))));
    }

    /** `findAllMine`. */
    method FindAllMine(userID: Id, query: Query) returns (r: Response)
      ensures r == MineFeed(db.State(), userID, query, db.regex)
    {
      var filter := Filter({userID}, None);
      if query.search.Some? && query.search.value != "" {
        filter := filter.(title := query.search);
      }
      r := FindPage(filter, query);
    }

    /** `findAllFollow`: the follow rows are walked one at a time to collect
      the followed accounts, which become the author filter. */
    method FindAllFollow(userID: Id, query: Query) returns (r: Response)
      ensures r == FollowFeed(db.State(), userID, query, db.regex)
    {
      var follows := FollowRows(db.follows, userID);
      if |follows| == 0 {
        return Success(Reply(OK, "Success", PostList([]), None));
      }
      var usersFollowed: seq<Id> := [];
      var rest := follows;
      while rest != {}
        invariant rest <= follows
        invariant (set x | x in usersFollowed) + Targets(rest) == Targets(follows)
        decreases |rest|
      {
        var e :| e in rest;
        TargetsRemove(rest, e);
        usersFollowed := usersFollowed + [e.follow];
        rest := rest - {e};
      }
      var filter := Filter((set x | x in usersFollowed), None);
      if query.search.Some? && query.search.value != "" {
        filter := filter.(title := query.search);
      }
      assert filter == FeedFilter(db.State(), userID, query);
      r := FindPage(filter, query);
    }
  }
}
