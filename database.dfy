/** The document store shared by both services: the five Mongoose models,
    held in memory, with the queries and writes the services issue. Each
    write changes one collection and nothing else. */
module Database {
  import opened Schemas

  class Store {
    var users: map<Id, User>
    var follows: set<Follow>
    var posts: map<Id, Post>
    var likes: set<Like>
    var comments: seq<Comment>
    /** Where the next generated `_id` comes from. */
    var nextId: nat
    /** The store's case-insensitive `$regex` evaluation. */
    const regex: Regex

    function State(): Db
      reads this
    {
      Db(users, follows, posts, likes, comments, nextId)
    }

    ghost predicate Valid()
      reads this
    {
      Schemas.Valid(State())
    }

    constructor (regex: Regex)
      ensures Valid() && this.regex == regex
      ensures State() == Db(map[], {}, map[], {}, [], 0)
    {
      users, follows, posts, likes, comments, nextId := map[], {}, map[], {}, [], 0;
      this.regex := regex;
    }

    /** `new userModel(user).save()`: stores `user` under a fresh id. */
    method SaveUser(user: User) returns (id: Id)
      modifies this
      ensures id == old(nextId)
      ensures State() == old(State()).(users := old(users)[id := user], nextId := id + 1)
    {
      id := nextId;
      users := users[id := user];
      nextId := nextId + 1;
    }

    /** `userModel.findByIdAndUpdate(id, {$set})`: whether the account
      existed; if it did, `update` is applied to it. */
    method FindUserByIdAndUpdate(id: Id, update: User -> User) returns (found: bool)
      modifies this
      ensures found == (id in old(users))
      ensures State() == if found then old(State()).(users := old(users)[id := update(old(users)[id])]) else old(State())
    {
      found := id in users;
      if found {
        users := users[id := update(users[id])];
      }
    }

    /** `new followModel(follow).save()`. */
    method SaveFollow(edge: Follow)
      modifies this
      ensures State() == old(State()).(follows := old(follows) + {edge})
    {
      follows := follows + {edge};
    }

    /** `followModel.findOneAndDelete(edge)`: whether the edge existed; it
      is gone afterwards. */
    method FindOneFollowAndDelete(edge: Follow) returns (found: bool)
      modifies this
      ensures found == (edge in old(follows))
      ensures State() == old(State()).(follows := old(follows) - {edge})
    {
      found := edge in follows;
      follows := follows - {edge};
    }

    /** `new postModel(post).save()`: stores `post` under a fresh id. */
    method SavePost(post: Post) returns (id: Id)
      modifies this
      ensures id == old(nextId)
      ensures State() == old(State()).(posts := old(posts)[id := post], nextId := id + 1)
    {
      id := nextId;
      posts := posts[id := post];
      nextId := nextId + 1;
    }

    /** `postModel.findByIdAndUpdate(id, {$set})`: whether the post existed;
      if it did, `update` is applied to it. */
    method FindPostByIdAndUpdate(id: Id, update: Post -> Post) returns (found: bool)
      modifies this
      ensures found == (id in old(posts))
      ensures State() == if found then old(State()).(posts := old(posts)[id := update(old(posts)[id])]) else old(State())
    {
      found := id in posts;
      if found {
        posts := posts[id := update(posts[id])];
      }
    }

    /** `postModel.findByIdAndDelete(id)`: whether the post existed; it is
      gone afterwards. */
    method FindPostByIdAndDelete(id: Id) returns (found: bool)
      modifies this
      ensures found == (id in old(posts))
      ensures State() == old(State()).(posts := old(posts) - {id})
    {
      found := id in posts;
      posts := posts - {id};
    }

    /** `new likeModel(like).save()`. */
    method SaveLike(row: Like)
      modifies this
      ensures State() == old(State()).(likes := old(likes) + {row})
    {
      likes := likes + {row};
    }

    /** `likeModel.findOneAndDelete(row)`: whether the row existed; it is
      gone afterwards. */
    method FindOneLikeAndDelete(row: Like) returns (found: bool)
      modifies this
      ensures found == (row in old(likes))
      ensures State() == old(State()).(likes := old(likes) - {row})
    {
      found := row in likes;
      likes := likes - {row};
    }

    /** `new commentModel(comment).save()`. */
    method SaveComment(row: Comment)
      modifies this
      ensures State() == old(State()).(comments := old(comments) + [row])
    {
      comments := comments + [row];
    }
  }
}
