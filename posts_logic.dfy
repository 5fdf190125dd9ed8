/** What each `PostsService` operation does to the store, as a function from
    the store before the call to the response and the store after it, and the
    filter-and-paginate rules of the two listing endpoints. The service class
    in module Posts performs the same steps one query at a time and is proved
    to agree with these functions. */
module PostsLogic {
  import opened Schemas
  import UsersLogic

  datatype CreatePostDto = CreatePostDto(title: string, caption: string)

  /** The update body has the same fields as the create body. */
  type UpdatePostDto = CreatePostDto

  datatype CreateCommentDto = CreateCommentDto(comment: string)

  const AuthorNotFound := HttpError(NOT_FOUND, "User does not exist")
  const PostNotFound := HttpError(NOT_FOUND, "Post does not exist")
  const NotOwnerOfUpdate := HttpError(UNAUTHORIZED, "You are unauthorized to update this post")
  const NotOwnerOfDelete := HttpError(UNAUTHORIZED, "You are unauthorized to delete this post")
  const AlreadyLiked := HttpError(CONFLICT, "Post already liked")
  const AlreadyUnliked := HttpError(CONFLICT, "Post already unliked")

  /** `PostsService.create`: a new post by `userID`, with no photo and both
      counters at zero, under a fresh id. */
  function CreatePost(db: Db, dto: CreatePostDto, userID: Id, now: Timestamp): (out: (Response, Db))
    requires WellFormed(db)
    ensures out.0 == Failure(AuthorNotFound) <==> userID !in db.users
    ensures out.0.Failure? ==> out.0 == Failure(AuthorNotFound) && out.1 == db
    ensures out.0.Success? ==>
      && out.0 == Done("Post successfully created")
      && db.nextId !in db.posts
      && out.1 == db.(posts := db.posts[db.nextId := Post(userID, dto.title, dto.caption, None, 0, 0, now, now)],
                      nextId := db.nextId + 1)
  {
    if userID !in db.users then (Failure(AuthorNotFound), db)
    else
      var post := Post(userID, dto.title, dto.caption, None, 0, 0, now, now);
      (Done("Post successfully created"), db.(posts := db.posts[db.nextId := post], nextId := db.nextId + 1))
  }

  /** `PostsService.update`: only the author may change a post, and only its
      title, caption and `updated_at` change. */
  function UpdatePost(db: Db, id: Id, userID: Id, dto: UpdatePostDto, now: Timestamp): (out: (Response, Db))
    ensures out.0 == Failure(PostNotFound) <==> id !in db.posts
    ensures out.0 == Failure(NotOwnerOfUpdate) <==> id in db.posts && db.posts[id].user_id != userID
    ensures out.0.Failure? ==> out.0 == Failure(PostNotFound) || out.0 == Failure(NotOwnerOfUpdate)
    ensures out.0.Failure? ==> out.1 == db
    ensures out.0.Success? ==>
      && out.0 == Done("Post successfully updated")
      && id in db.posts && db.posts[id].user_id == userID
      && out.1 == db.(posts := db.posts[id := db.posts[id].(title := dto.title, caption := dto.caption, updated_at := now)])
  {
    if id !in db.posts then (Failure(PostNotFound), db)
    else if db.posts[id].user_id != userID then (Failure(NotOwnerOfUpdate), db)
    else
      var post := db.posts[id].(title := dto.title, caption := dto.caption, updated_at := now);
      (Done("Post successfully updated"), db.(posts := db.posts[id := post]))
  }

  /** `PostsService.delete`: only the author may remove a post; its like and
      comment rows stay behind. */
  function DeletePost(db: Db, id: Id, userID: Id): (out: (Response, Db))
    ensures out.0 == Failure(PostNotFound) <==> id !in db.posts
    ensures out.0 == Failure(NotOwnerOfDelete) <==> id in db.posts && db.posts[id].user_id != userID
    ensures out.0.Failure? ==> out.0 == Failure(PostNotFound) || out.0 == Failure(NotOwnerOfDelete)
    ensures out.0.Failure? ==> out.1 == db
    ensures out.0.Success? ==>
      && out.0 == Done("Post successfully deleted")
      && id in db.posts && db.posts[id].user_id == userID
      && out.1 == db.(posts := db.posts - {id})
  {
    if id !in db.posts then (Failure(PostNotFound), db)
    else if db.posts[id].user_id != userID then (Failure(NotOwnerOfDelete), db)
    else (Done("Post successfully deleted"), db.(posts := db.posts - {id}))
  }

  /** `PostsService.like`: the post must exist, then the caller must not have
      liked it yet; the counter goes up and the row is added. */
  function LikePost(db: Db, id: Id, userID: Id): (out: (Response, Db))
    ensures out.0 == Failure(PostNotFound) <==> id !in db.posts
    ensures out.0 == Failure(AlreadyLiked) <==> id in db.posts && Like(id, userID) in db.likes
    ensures out.0.Failure? ==> out.0 == Failure(PostNotFound) || out.0 == Failure(AlreadyLiked)
    ensures out.0.Failure? ==> out.1 == db
    ensures out.0.Success? ==>
      && out.0 == Done("Success")
      && id in db.posts && Like(id, userID) !in db.likes
      && out.1 == db.(posts := db.posts[id := db.posts[id].(likes := db.posts[id].likes + 1)],
                      likes := db.likes + {Like(id, userID)})
  {
    if id !in db.posts then (Failure(PostNotFound), db)
    else if Like(id, userID) in db.likes then (Failure(AlreadyLiked), db)
    else
      var post := db.posts[id];
      (Done("Success"), db.(posts := db.posts[id := post.(likes := post.likes + 1)],
                            likes := db.likes + {Like(id, userID)}))
  }

  /** `PostsService.unlike`: the post must exist, then the caller's like row
      must exist; the row is removed and the counter goes down. */
  function UnlikePost(db: Db, id: Id, userID: Id): (out: (Response, Db))
    ensures out.0 == Failure(PostNotFound) <==> id !in db.posts
    ensures out.0 == Failure(AlreadyUnliked) <==> id in db.posts && Like(id, userID) !in db.likes
    ensures out.0.Failure? ==> out.0 == Failure(PostNotFound) || out.0 == Failure(AlreadyUnliked)
    ensures out.0.Failure? ==> out.1 == db
    ensures out.0.Success? ==>
      && out.0 == Done("Success")
      && id in db.posts && Like(id, userID) in db.likes
      && out.1 == db.(posts := db.posts[id := db.posts[id].(likes := db.posts[id].likes - 1)],
                      likes := db.likes - {Like(id, userID)})
  {
    if id !in db.posts then (Failure(PostNotFound), db)
    else if Like(id, userID) !in db.likes then (Failure(AlreadyUnliked), db)
    else
      var post := db.posts[id];
      (Done("Success"), db.(posts := db.posts[id := post.(likes := post.likes - 1)],
                            likes := db.likes - {Like(id, userID)}))
  }

  /** `PostsService.comment`: the post must exist; its counter goes up and
      one comment row is appended. */
  function CommentPost(db: Db, id: Id, userID: Id, dto: CreateCommentDto, now: Timestamp): (out: (Response, Db))
    ensures out.0 == Failure(PostNotFound) <==> id !in db.posts
    ensures out.0.Failure? ==> out.0 == Failure(PostNotFound) && out.1 == db
    ensures out.0.Success? ==>
      && out.0 == Done("Success")
      && id in db.posts
      && out.1 == db.(posts := db.posts[id := db.posts[id].(comments := db.posts[id].comments + 1)],
                      comments := db.comments + [Comment(id, userID, dto.comment, now, now)])
  {
    if id !in db.posts then (Failure(PostNotFound), db)
    else
      var post := db.posts[id];
      (Done("Success"), db.(posts := db.posts[id := post.(comments := post.comments + 1)],
                            comments := db.comments + [Comment(id, userID, dto.comment, now, now)]))
  }

  // ---------------------------------------------------------------------
  // Counter/row consistency
  // ---------------------------------------------------------------------

  lemma CreatePostPreservesValid(db: Db, dto: CreatePostDto, userID: Id, now: Timestamp)
    requires Valid(db)
    ensures Valid(CreatePost(db, dto, userID, now).1)
  {
    var out := CreatePost(db, dto, userID, now);
    if out.0.Success? {
      var newId := db.nextId;
      assert LikesOf(db.likes, newId) == {};
      CommentCountUnreferenced(db.comments, newId);
      forall id | id in out.1.posts
        ensures out.1.posts[id].likes == |LikesOf(out.1.likes, id)|
        ensures out.1.posts[id].comments == CommentCount(out.1.comments, id)
      {
        if id != newId {
          assert out.1.posts[id] == db.posts[id];
        }
      }
    }
  }

  lemma UpdatePostPreservesValid(db: Db, id: Id, userID: Id, dto: UpdatePostDto, now: Timestamp)
    requires Valid(db)
    ensures Valid(UpdatePost(db, id, userID, dto, now).1)
  {
    var out := UpdatePost(db, id, userID, dto, now);
    if out.0.Success? {
      forall k | k in out.1.posts
        ensures out.1.posts[k].likes == |LikesOf(out.1.likes, k)|
        ensures out.1.posts[k].comments == CommentCount(out.1.comments, k)
      {
        assert out.1.posts[k].likes == db.posts[k].likes && out.1.posts[k].comments == db.posts[k].comments;
      }
    }
  }

  lemma DeletePostPreservesValid(db: Db, id: Id, userID: Id)
    requires Valid(db)
    ensures Valid(DeletePost(db, id, userID).1)
  {
  }

  /** Adding one like row for `id` adds one to that post's row count and
      leaves every other post's rows alone. */
  lemma {:induction false} LikesOfInsert(likes: set<Like>, row: Like, post: Id)
    requires row !in likes
    ensures |LikesOf(likes + {row}, post)| == |LikesOf(likes, post)| + (if row.post_id == post then 1 else 0)
  {
    if row.post_id == post {
      assert LikesOf(likes + {row}, post) == LikesOf(likes, post) + {row};
    } else {
      assert LikesOf(likes + {row}, post) == LikesOf(likes, post);
    }
  }

  /** Removing one like row for `id` takes one from that post's row count
      and leaves every other post's rows alone. */
  lemma {:induction false} LikesOfRemove(likes: set<Like>, row: Like, post: Id)
    requires row in likes
    ensures |LikesOf(likes - {row}, post)| == |LikesOf(likes, post)| - (if row.post_id == post then 1 else 0)
  {
    if row.post_id == post {
      assert LikesOf(likes - {row}, post) == LikesOf(likes, post) - {row};
    } else {
      assert LikesOf(likes - {row}, post) == LikesOf(likes, post);
    }
  }

  /** Run one at a time, `like` keeps every post's `likes` equal to its
      number of like rows. */
  lemma LikePostPreservesValid(db: Db, id: Id, userID: Id)
    requires Valid(db)
    ensures Valid(LikePost(db, id, userID).1)
  {
    var out := LikePost(db, id, userID);
    if out.0.Success? {
      var row := Like(id, userID);
      forall k | k in out.1.posts
        ensures out.1.posts[k].likes == |LikesOf(out.1.likes, k)|
      {
        LikesOfInsert(db.likes, row, k);
      }
    }
  }

  /** Run one at a time, `unlike` keeps every post's `likes` equal to its
      number of like rows. */
  lemma UnlikePostPreservesValid(db: Db, id: Id, userID: Id)
    requires Valid(db)
    ensures Valid(UnlikePost(db, id, userID).1)
  {
    var out := UnlikePost(db, id, userID);
    if out.0.Success? {
      var row := Like(id, userID);
      forall k | k in out.1.posts
        ensures out.1.posts[k].likes == |LikesOf(out.1.likes, k)|
      {
        LikesOfRemove(db.likes, row, k);
      }
    }
  }

  /** `comment` keeps every post's `comments` equal to its number of
      comment rows. */
  lemma CommentPostPreservesValid(db: Db, id: Id, userID: Id, dto: CreateCommentDto, now: Timestamp)
    requires Valid(db)
    ensures Valid(CommentPost(db, id, userID, dto, now).1)
  {
    var out := CommentPost(db, id, userID, dto, now);
    if out.0.Success? {
      var row := Comment(id, userID, dto.comment, now, now);
      forall k | k in out.1.posts
        ensures out.1.posts[k].comments == CommentCount(out.1.comments, k)
      {
        CommentCountAppend(db.comments, row, k);
      }
    }
  }

  /** `like` then `unlike` by the same caller restores the counter and the
      like rows. */
  lemma LikeThenUnlike(db: Db, id: Id, userID: Id)
    requires LikePost(db, id, userID).0.Success?
    ensures UnlikePost(LikePost(db, id, userID).1, id, userID) == (Done("Success"), db)
  {
    var row := Like(id, userID);
    var post := db.posts[id];
    var liked := LikePost(db, id, userID).1;
    assert liked.posts[id].(likes := liked.posts[id].likes - 1) == post;
    assert liked.posts[id := post] == db.posts;
    assert liked.likes - {row} == db.likes;
  }

  /** `unlike` then `like` by the same caller restores the counter and the
      like rows. */
  lemma UnlikeThenLike(db: Db, id: Id, userID: Id)
    requires UnlikePost(db, id, userID).0.Success?
    ensures LikePost(UnlikePost(db, id, userID).1, id, userID) == (Done("Success"), db)
  {
    var row := Like(id, userID);
    var post := db.posts[id];
    var unliked := UnlikePost(db, id, userID).1;
    assert unliked.posts[id].(likes := unliked.posts[id].likes + 1) == post;
    assert unliked.posts[id := post] == db.posts;
    assert unliked.likes + {row} == db.likes;
  }

  /** A second `like` by the same caller is a conflict and leaves the counter
      where the first one put it. */
  lemma LikeTwiceConflicts(db: Db, id: Id, userID: Id)
    requires LikePost(db, id, userID).0.Success?
    ensures var db' := LikePost(db, id, userID).1;
      && LikePost(db', id, userID) == (Failure(AlreadyLiked), db')
      && db'.posts[id].likes == db.posts[id].likes + 1
  {
  }

  // ---------------------------------------------------------------------
  // Listing: filter and pagination
  // ---------------------------------------------------------------------

  const DefaultPage := 1
  const DefaultLimit := 10

  /** Page sizes are positive. */
  type Limit = n: int | n > 0 witness DefaultLimit

  /** The query string, already parsed: `search`, `page` and `limit` are
      each optional. */
  datatype Query = Query(search: Option<string>, page: Option<int>, limit: Option<Limit>)

  /** A `find` filter: the author must be one of `authors`, and the title
      must match `title` when one is given. */
  datatype Filter = Filter(authors: set<Id>, title: Option<string>)

  predicate Matches(f: Filter, p: Post, rx: Regex) {
    p.user_id in f.authors && (f.title.Some? ==> rx.matches(p.title, f.title.value))
  }

  /** The store refuses the title pattern of a filter: it does not compile. */
  predicate Rejected(rx: Regex, title: Option<string>) {
    title.Some? && rx.reject(title.value).Some?
  }

  /** `if (query.search)`: an empty search string is falsy and adds no title
      condition. */
  function SearchOf(q: Query): (title: Option<string>)
    ensures title.Some? <==> q.search.Some? && q.search.value != ""
    ensures title.Some? ==> title == q.search
  {
    if q.search.Some? && q.search.value != "" then q.search else None
  }

  /** The page, page size and offset the query asks for. */
  datatype Paging = Paging(page: int, limit: Limit, skip: int)

  function PagingOf(q: Query): (p: Paging)
    ensures p.limit == (if q.limit.Some? then q.limit.value else DefaultLimit)
    ensures p.page == (if q.page.Some? then q.page.value else DefaultPage)
    ensures q.page.None? ==> p.skip == 0
    ensures p.skip == (p.page - 1) * p.limit
    ensures p.skip >= 0 <==> p.page >= 1
  {
    var limit: Limit := if q.limit.Some? then q.limit.value else DefaultLimit;
    if q.page.Some? then
      var page := q.page.value;
      NonNegativeProduct(page - 1, limit);
      Paging(page, limit, (page - 1) * limit)
    else Paging(DefaultPage, limit, 0)
  }

  lemma NonNegativeProduct(a: int, b: int)
    requires b > 0
    ensures a * b >= 0 <==> a >= 0
  {
    if a < 0 {
      assert a * b <= -b;
    }
  }

  /** `Math.ceil(total / limit)`: the number of pages `total` items fill. */
  function LastPage(total: nat, limit: Limit): (last: nat)
    ensures last * limit >= total
    ensures last > 0 ==> (last - 1) * limit < total
  {
    var last := (total + limit - 1) / limit;
    assert last * limit >= total && (last > 0 ==> (last - 1) * limit < total) by {
      var rest := (total + limit - 1) % limit;
      assert total + limit - 1 == last * limit + rest && 0 <= rest < limit;
    }
    last
  }

  /** `skip(skip).limit(limit)` applied to a result list. */
  function Window<T>(xs: seq<T>, skip: nat, limit: Limit): (w: seq<T>)
    ensures |w| == (if skip >= |xs| then 0 else if |xs| - skip < limit then |xs| - skip else limit)
    ensures forall i :: 0 <= i < |w| ==> skip + i < |xs| && w[i] == xs[skip + i]
  {
    if skip >= |xs| then []
    else if |xs| - skip < limit then xs[skip..]
    else xs[skip..skip + limit]
  }

  /** `find(filter).sort('created_at')`: every matching post, in creation
      order. */
  function Found(db: Db, f: Filter, rx: Regex): (docs: seq<PostDoc>)
    ensures forall i :: 0 <= i < |docs| ==>
      docs[i].id in db.posts && docs[i].post == db.posts[docs[i].id] && Matches(f, docs[i].post, rx)
    ensures forall i, j :: 0 <= i < j < |docs| ==> docs[i].id < docs[j].id
    ensures WellFormed(db) ==>
      forall id :: id in db.posts && Matches(f, db.posts[id], rx) ==>
        exists i :: 0 <= i < |docs| && docs[i].id == id
  {
    var ids := Scan(db.posts, (p: Post) => Matches(f, p, rx), db.nextId);
    var docs := seq(|ids|, i requires 0 <= i < |ids| => PostDoc(ids[i], db.posts[ids[i]]));
    assert forall id :: id in ids ==> exists i :: 0 <= i < |docs| && docs[i].id == id by {
      forall id | id in ids ensures exists i :: 0 <= i < |docs| && docs[i].id == id {
        var i :| 0 <= i < |ids| && ids[i] == id;
        assert docs[i].id == id;
      }
    }
    docs
  }

  /** The tail shared by `findAllMine` and `findAllFollow`: one page of the
      posts that match, with the total count and the page arithmetic. The
      store refuses the query when a page below 1 makes the offset negative
      or when the search pattern does not compile; the catch block turns
      either refusal into a 500 carrying the store's message. */
  function Listing(db: Db, f: Filter, q: Query, rx: Regex): (r: Response)
    ensures r.Failure? <==> (q.page.Some? && q.page.value < 1) || Rejected(rx, f.title)
    ensures r.Failure? ==> r.error.status == INTERNAL_SERVER_ERROR
    ensures q.page.Some? && q.page.value < 1 ==> r == Failure(HttpError(INTERNAL_SERVER_ERROR, NegativeSkipMessage))
    ensures r.Failure? && !(q.page.Some? && q.page.value < 1) ==>
      r.error.message == rx.reject(f.title.value).value
    ensures r.Success? ==>
      var paging := PagingOf(q);
      var total := |Found(db, f, rx)|;
      && r.value.statusCode == OK && r.value.message == "Success"
      && r.value.data.PostList?
      && |r.value.data.docs| <= paging.limit
      && (forall i :: 0 <= i < |r.value.data.docs| ==>
            r.value.data.docs[i].id in db.posts && Matches(f, r.value.data.docs[i].post, rx))
      && r.value.data.docs == Window(Found(db, f, rx), paging.skip, paging.limit)
      && r.value.meta == Some(Meta(total, paging.page, LastPage(total, paging.limit)))
  {
    var paging := PagingOf(q);
    if paging.skip < 0 then Failure(HttpError(INTERNAL_SERVER_ERROR, NegativeSkipMessage))
    else if Rejected(rx, f.title) then Failure(HttpError(INTERNAL_SERVER_ERROR, rx.reject(f.title.value).value))
    else
      var found := Found(db, f, rx);
      var total := |found|;
      Success(Reply(OK, "Success", PostList(Window(found, paging.skip, paging.limit)),
                    Some(Meta(total, paging.page, LastPage(total, paging.limit)))))
  }

  /** The store's complaint about a negative offset. */
  const NegativeSkipMessage := "Skip value must be non-negative"

  /** A page past `last_page` is empty, and its meta still reports the full
      total. */
  lemma PageBeyondLastIsEmpty(db: Db, f: Filter, q: Query, rx: Regex)
    requires q.page.Some?
    requires var total := |Found(db, f, rx)|;
      q.page.value > LastPage(total, PagingOf(q).limit)
    ensures var r := Listing(db, f, q, rx);
      && (r.Success? <==> !Rejected(rx, f.title))
      && (r.Success? ==> r.value.data.docs == [] && r.value.meta.value.total == |Found(db, f, rx)|)
  {
    var paging := PagingOf(q);
    var total := |Found(db, f, rx)|;
    var last := LastPage(total, paging.limit);
    assert paging.page - 1 >= last;
    assert (paging.page - 1) * paging.limit >= last * paging.limit by {
      MultiplyMonotone(last, paging.page - 1, paging.limit);
    }
  }

  lemma MultiplyMonotone(a: int, b: int, c: int)
    requires a <= b && c > 0
    ensures a * c <= b * c
  {
    assert b * c - a * c == (b - a) * c;
  }

  /** On a page of the listing, item `i` is item `(page - 1) * limit + i` of
      the full creation-ordered result. */
  lemma ListingItemPosition(db: Db, f: Filter, q: Query, rx: Regex, i: nat)
    requires Listing(db, f, q, rx).Success?
    requires i < |Listing(db, f, q, rx).value.data.docs|
    ensures var paging := PagingOf(q);
      var found := Found(db, f, rx);
      && (paging.page - 1) * paging.limit + i < |found|
      && Listing(db, f, q, rx).value.data.docs[i] == found[(paging.page - 1) * paging.limit + i]
  {
  }

  // ---------------------------------------------------------------------
  // The two listing endpoints
  // ---------------------------------------------------------------------

  /** `findAllMine`: the caller's own posts, narrowed by the search. */
  function MineFeed(db: Db, userID: Id, q: Query, rx: Regex): (r: Response)
    ensures r.Failure? <==> (q.page.Some? && q.page.value < 1) || Rejected(rx, SearchOf(q))
    ensures r.Success? ==> r.value.data.PostList? && r.value.meta.Some?
    ensures r.Success? ==> forall i :: 0 <= i < |r.value.data.docs| ==>
      var doc := r.value.data.docs[i];
      && doc.id in db.posts && doc.post.user_id == userID
      && (SearchOf(q).Some? ==> rx.matches(doc.post.title, SearchOf(q).value))
  {
    Listing(db, Filter({userID}, SearchOf(q)), q, rx)
  }

  /** `followModel.find({user_id: userID})`: the follow rows of `userID`. */
  function FollowRows(follows: set<Follow>, userID: Id): (rows: set<Follow>)
    ensures forall e :: e in rows <==> e in follows && e.user_id == userID
  {
    set e | e in follows && e.user_id == userID
  }

  /** The accounts a set of follow rows points at. */
  function Targets(rows: set<Follow>): (ids: set<Id>)
    ensures forall e :: e in rows ==> e.follow in ids
    ensures forall x :: x in ids ==> exists e :: e in rows && e.follow == x
    ensures rows == {} <==> ids == {}
  {
    set e | e in rows :: e.follow
  }

  /** Taking one row out of a set of rows leaves the targets of the others,
      plus that row's own target. */
  lemma TargetsRemove(rows: set<Follow>, e: Follow)
    requires e in rows
    ensures Targets(rows) == Targets(rows - {e}) + {e.follow}
  {
  }

  /** The filter of `findAllFollow`: posts by an account `userID` follows,
      narrowed by the search. */
  function FeedFilter(db: Db, userID: Id, q: Query): (f: Filter)
    ensures forall a :: a in f.authors <==> Follow(userID, a) in db.follows
    ensures f.title == SearchOf(q)
  {
    var f := Filter(Targets(FollowRows(db.follows, userID)), SearchOf(q));
    assert forall a :: Follow(userID, a) in db.follows ==> a in f.authors by {
      forall a | Follow(userID, a) in db.follows ensures a in f.authors {
        assert Follow(userID, a) in FollowRows(db.follows, userID);
      }
    }
    f
  }

  /** `findAllFollow`: the posts of the accounts the caller follows. A caller
      who follows nobody gets an empty list and no meta, whatever the page. */
  function FollowFeed(db: Db, userID: Id, q: Query, rx: Regex): (r: Response)
    ensures FollowRows(db.follows, userID) == {} ==> r == Success(Reply(OK, "Success", PostList([]), None))
    ensures r.Failure? <==>
      FollowRows(db.follows, userID) != {} && ((q.page.Some? && q.page.value < 1) || Rejected(rx, SearchOf(q)))
    ensures r.Success? ==> r.value.data.PostList?
    ensures r.Success? ==> forall i :: 0 <= i < |r.value.data.docs| ==>
      var doc := r.value.data.docs[i];
      && doc.id in db.posts && Follow(userID, doc.post.user_id) in db.follows
      && (SearchOf(q).Some? ==> rx.matches(doc.post.title, SearchOf(q).value))
  {
    if FollowRows(db.follows, userID) == {} then Success(Reply(OK, "Success", PostList([]), None))
    else Listing(db, FeedFilter(db, userID, q), q, rx)
  }

  /** Once `userID` follows `id`, every post of `id` whose title passes the
      search is counted in `userID`'s follow feed, unless the store refuses
      the search pattern. */
  lemma FollowedPostsReachFeed(db: Db, id: Id, userID: Id, q: Query, rx: Regex, post: Id)
    requires WellFormed(db)
    requires UsersLogic.FollowUser(db, id, userID).0.Success?
    requires q.page.None? || q.page.value >= 1
    requires post in db.posts && db.posts[post].user_id == id
    requires SearchOf(q).Some? ==> rx.matches(db.posts[post].title, SearchOf(q).value)
    ensures var db' := UsersLogic.FollowUser(db, id, userID).1;
      var r := FollowFeed(db', userID, q, rx);
      && (r.Success? <==> !Rejected(rx, SearchOf(q)))
      && (r.Success? ==>
            && r.value.meta.Some?
            && exists i :: 0 <= i < r.value.meta.value.total &&
                 Found(db', FeedFilter(db', userID, q), rx)[i].id == post)
  {
    var db' := UsersLogic.FollowUser(db, id, userID).1;
    assert Follow(userID, id) in FollowRows(db'.follows, userID);
    var f := FeedFilter(db', userID, q);
    assert Matches(f, db'.posts[post], rx);
    var found := Found(db', f, rx);
    var i :| 0 <= i < |found| && found[i].id == post;
  }
}
