# social-media-nestjs, modelled in Dafny

This project models the core of a small NestJS social-media back end over
MongoDB. The core has four parts:

- **Users service**: sign-up, log-in, profile update, follow and unfollow.
- **Posts service**: create, update and delete a post; like, unlike and
  comment; list one's own posts or the posts of followed accounts, with
  search and pagination.
- **Users controller**: the identity and self-follow guards it applies before
  handing a request to the users service.
- **Authorization middleware**: it takes the bearer token out of the
  `authorization` header and turns the verifier's verdict into "next", a 403
  or a 401.

The document store is held in memory. The collections are users, follow edges,
posts, like rows and comment rows, and a counter hands out document ids. Its
invariant `Schemas.Valid` has three parts:

- every id was handed out by the counter;
- no two accounts share an email or a username;
- every post's `likes` and `comments` counters equal the number of like and
  comment rows that point at it.

Modules:

- `Schemas` holds the documents, the store value `Db`, the response envelope,
  and the two store queries (`find` in natural order, `findOne`).
- `Database` holds the `Store` class, one field per collection. Each method
  models one Mongoose write and changes only its own collection.
- `UsersLogic` and `PostsLogic` describe every service operation as a function
  from the store before the call to the response and the store after it. The
  lemmas about those functions cover invariant preservation, round trips,
  conflicts on repetition and the pagination arithmetic.
- `Users` and `Posts` hold the two service classes. Their methods issue the
  same queries and writes as the source, one at a time. Each method is proved
  to return exactly what the matching logic function describes, and to keep
  `Valid`. `findAllFollow` walks the follow rows in a loop to collect the
  followed accounts.
- `UsersController` models the controller as a function: the guard, then
  delegation to the service.
- `Auth` holds the middleware: JavaScript's `split(' ')`, the token
  extraction, and the classification of verification failures.

Foreign calls are parameters of the model:

- bcrypt hashing and comparison, and JWT signing (`UsersLogic.Crypto`);
- JWT verification (`Auth.Verifier`);
- Mongo's case-insensitive `$regex` on titles, and its refusal of a pattern that does not compile (`Schemas.Regex`, held in `Store.regex`);
- the salt bcrypt draws and the current time, which are method arguments.

## Model

| member | source | states |
|---|---|---|
| Schemas.Scan | src/posts/posts.service.ts:169-173 | `find(filter)` returns every matching document exactly once, in ascending id (creation) order, and nothing that does not match |
| Schemas.FindOne | src/users/users.service.ts:20-22 | `findOne(filter)` returns a matching document and no earlier document matches; when it finds nothing, no document matches |
| Schemas.FindOneFindsAny | src/users/users.service.ts:20-25 | in a well-formed store `findOne` finds something exactly when some document matches |
| Schemas.CommentCountAppend | src/posts/posts.service.ts:387 | saving one comment row adds one to the comment count of its post and nothing to any other post's count |
| Schemas.CommentCountUnreferenced | src/posts/posts.service.ts:43 | a post id that no comment row references has a comment count of zero |
| Database.Store.SaveUser | src/users/users.service.ts:47 | saving an account stores it under a fresh id and changes nothing else |
| Database.Store.FindUserByIdAndUpdate | src/users/users.service.ts:149-151 | reports whether the account exists, and applies the `$set` to that account only |
| Database.Store.SaveFollow | src/users/users.service.ts:190 | adds exactly the given follow edge |
| Database.Store.FindOneFollowAndDelete | src/users/users.service.ts:219-222 | reports whether the edge existed and leaves the edge set without it |
| Database.Store.SavePost | src/posts/posts.service.ts:43 | saving a post stores it under a fresh id and changes nothing else |
| Database.Store.FindPostByIdAndUpdate | src/posts/posts.service.ts:282-284 | reports whether the post exists, and applies the `$set` to that post only |
| Database.Store.FindPostByIdAndDelete | src/posts/posts.service.ts:123 | reports whether the post existed and removes only that id |
| Database.Store.SaveLike | src/posts/posts.service.ts:297 | adds exactly the given like row |
| Database.Store.FindOneLikeAndDelete | src/posts/posts.service.ts:326-329 | reports whether the like row existed and leaves the like set without it |
| Database.Store.SaveComment | src/posts/posts.service.ts:387 | appends exactly the given comment row |
| Auth.Split | src/middleware/auth.middleware.ts:16 | `split(' ')` yields at least one field, no field contains the separator, and joining the fields with the separator gives back the header |
| Auth.SplitJoin | src/middleware/auth.middleware.ts:16 | splitting undoes joining whenever no field holds the separator |
| Auth.BearerToken | src/middleware/auth.middleware.ts:16 | the token is the second space-separated field; it exists exactly when the header contains a space, and it contains no space itself |
| Auth.BearerTokenOf | src/middleware/auth.middleware.ts:16 | for any header made of two or more space-free words joined by single spaces, the token is the second word, whatever the first (scheme) word is and whatever follows the token |
| Auth.Classify | src/middleware/auth.middleware.ts:21-28 | "jwt expired" becomes 403 "Sesi is over", "invalid token" becomes 403 "Token is not valid", any other message becomes a 401 carrying that message; the status is 403 exactly for the two known messages |
| Auth.Use | src/middleware/auth.middleware.ts:14-30 | `next()` runs exactly when the header is present and verification succeeds, and the request is forwarded unmodified; a missing header is a 401 with the TypeError's message; a failed verification is classified; every refusal is a 401 or a 403 |
| Auth.UseBearer | src/middleware/auth.middleware.ts:16-25 | with a header `Bearer <token>` the request passes exactly when the verifier accepts `<token>`, and an expired token is refused with 403 "Sesi is over" |
| Auth.UseMissingToken | src/middleware/auth.middleware.ts:16-27 | a header without a space gives the verifier no token; when the verifier refuses that with "jwt must be provided", the request is refused with 401 and that message |
| UsersLogic.SignUp | src/users/users.service.ts:18-67 | CONFLICT "Email already exist" exactly when the email is taken; otherwise CONFLICT "Username is already exist" exactly when the username is taken; these are the only failures, so the call succeeds exactly when neither is taken; a failure changes nothing; success inserts exactly one account under a fresh id with the hashed password and no fullname or photo |
| UsersLogic.LogIn | src/users/users.service.ts:69-122 | NOT_FOUND exactly when no account has the identifier as username or email; the only other failure is UNAUTHORIZED; the first matching account decides, and the call succeeds exactly when the password compares equal to that account's hash; success returns that account's id and a token signed over its claims |
| UsersLogic.UpdateUser | src/users/users.service.ts:124-168 | with unique accounts: CONFLICT on the email exactly when another account holds it; then CONFLICT on the username exactly when another account holds it; NOT_FOUND exactly when the id is absent and there is no conflict; no other failure, so the call succeeds exactly when the account exists and no other account holds the email or the username; a failure changes nothing; success changes only email, username and fullname of that account (for a body with only the declared fields) |
| UsersLogic.FollowUser | src/users/users.service.ts:170-210 | NOT_FOUND exactly when the target is absent; CONFLICT exactly when the target exists and the edge is already there; no other failure, so an existing target without the edge is followed; success adds exactly that edge; a failure changes nothing |
| UsersLogic.UnfollowUser | src/users/users.service.ts:212-239 | NOT_FOUND exactly when the target is absent; CONFLICT exactly when the target exists and the edge is missing; no other failure, so an existing edge to an existing target is removed; success removes exactly that edge; a failure changes nothing |
| UsersLogic.SignUpPreservesValid | src/users/users.service.ts:20-47 | sign-up keeps the store invariant, in particular that emails and usernames stay unique |
| UsersLogic.UpdateUserPreservesValid | src/users/users.service.ts:130-154 | profile update keeps emails and usernames unique |
| UsersLogic.SignUpTwiceConflicts | src/users/users.service.ts:20-35 | a second sign-up reusing the email or the username of a successful one is a CONFLICT and changes nothing |
| UsersLogic.LogInAfterSignUp | src/users/users.service.ts:18-122 | a fresh account can log in with its email and password, unless an older account uses that email as its username |
| UsersLogic.FollowThenUnfollow | src/users/users.service.ts:170-239 | a successful follow followed by an unfollow of the same target succeeds and restores the store |
| UsersLogic.UnfollowThenFollow | src/users/users.service.ts:170-239 | a successful unfollow followed by a follow of the same target succeeds and restores the store |
| UsersLogic.FollowTwiceConflicts | src/users/users.service.ts:177-183 | following the same target twice is a CONFLICT the second time and changes nothing |
| Users.UsersService.SignUp | src/users/users.service.ts:18-67 | the method's queries and writes produce exactly the response and store of `UsersLogic.SignUp`, and keep the store invariant |
| Users.UsersService.LogIn | src/users/users.service.ts:69-122 | the method returns exactly `UsersLogic.LogIn` of the current store and changes nothing |
| Users.UsersService.Update | src/users/users.service.ts:124-168 | the method produces exactly the response and store of `UsersLogic.UpdateUser`, and keeps the store invariant |
| Users.UsersService.Follow | src/users/users.service.ts:170-210 | the method produces exactly the response and store of `UsersLogic.FollowUser`, and keeps the store invariant |
| Users.UsersService.Unfollow | src/users/users.service.ts:212-239 | the method produces exactly the response and store of `UsersLogic.UnfollowUser`, and keeps the store invariant |
| PostsLogic.CreatePost | src/posts/posts.service.ts:20-63 | NOT_FOUND is the only failure, exactly when the caller's account is absent, and then nothing changes; success adds exactly one post under a fresh id, by the caller, with no photo and both counters at zero |
| PostsLogic.UpdatePost | src/posts/posts.service.ts:65-108 | NOT_FOUND exactly when the post is absent; UNAUTHORIZED exactly when it exists and the caller is not its author; no other failure, so the author of an existing post always succeeds; failures change nothing; success changes only title, caption and `updated_at` of that post (for a body with only the declared fields) |
| PostsLogic.DeletePost | src/posts/posts.service.ts:110-143 | NOT_FOUND exactly when the post is absent; UNAUTHORIZED exactly when the caller is not its author; no other failure, so the author of an existing post always succeeds; failures change nothing; success removes only that post |
| PostsLogic.LikePost | src/posts/posts.service.ts:267-317 | NOT_FOUND exactly when the post is absent, before any like lookup; CONFLICT exactly when the post exists and the caller's like row is already there; no other failure, so a first like of an existing post succeeds; success adds one to `likes` and adds exactly that row; failures change nothing |
| PostsLogic.UnlikePost | src/posts/posts.service.ts:319-356 | NOT_FOUND exactly when the post is absent; CONFLICT exactly when the caller's like row is missing; no other failure, so removing an existing like succeeds; success removes exactly that row and takes one from `likes`; failures change nothing |
| PostsLogic.CommentPost | src/posts/posts.service.ts:358-407 | NOT_FOUND is the only failure, exactly when the post is absent, and changes nothing; success adds one to `comments` and appends exactly one row with the post, the caller and the text |
| PostsLogic.CreatePostPreservesValid | src/posts/posts.service.ts:32-43 | creating a post keeps the store invariant: the new post has no like or comment rows |
| PostsLogic.UpdatePostPreservesValid | src/posts/posts.service.ts:85-88 | updating a post keeps the store invariant |
| PostsLogic.DeletePostPreservesValid | src/posts/posts.service.ts:123 | deleting a post keeps the store invariant |
| PostsLogic.LikePostPreservesValid | src/posts/posts.service.ts:282-297 | run one at a time, like keeps every post's `likes` equal to its number of like rows |
| PostsLogic.UnlikePostPreservesValid | src/posts/posts.service.ts:326-336 | run one at a time, unlike keeps every post's `likes` equal to its number of like rows |
| PostsLogic.CommentPostPreservesValid | src/posts/posts.service.ts:369-387 | comment keeps every post's `comments` equal to its number of comment rows |
| PostsLogic.LikeThenUnlike | src/posts/posts.service.ts:267-356 | a successful like followed by an unlike by the same caller succeeds and restores the counter and the like rows |
| PostsLogic.UnlikeThenLike | src/posts/posts.service.ts:267-356 | a successful unlike followed by a like by the same caller succeeds and restores the counter and the like rows |
| PostsLogic.LikeTwiceConflicts | src/posts/posts.service.ts:274-280 | a second like by the same caller is a CONFLICT, changes nothing, and the counter stays one above where it started |
| PostsLogic.SearchOf | src/posts/posts.service.ts:154-158 | the title condition is added exactly when a non-empty search string is given, and it is that string |
| PostsLogic.PagingOf | src/posts/posts.service.ts:147-167 | page defaults to 1 and limit to 10; skip is 0 without a page and `(page - 1) * limit` otherwise; skip is negative exactly when page is below 1 |
| PostsLogic.LastPage | src/posts/posts.service.ts:184 | `last_page` is the ceiling of `total / limit`: the smallest page count whose pages hold `total` items |
| PostsLogic.Window | src/posts/posts.service.ts:169-173 | `skip(skip).limit(limit)` has `min(limit, max(0, n - skip))` items, item `i` being item `skip + i` of the full result |
| PostsLogic.Found | src/posts/posts.service.ts:169-175 | every listed post exists and satisfies the filter, posts come in creation order, and in a well-formed store every matching post is listed |
| PostsLogic.Listing | src/posts/posts.service.ts:154-194 | the call fails exactly when the page is below 1 or the store refuses the search pattern, always with a 500: a page below 1 gives the negative-offset message, a refused pattern the store's complaint about it; otherwise the reply is "Success" with at most `limit` posts, all satisfying the filter, being the requested window of the full result, with meta `total`, `page` and `last_page` |
| PostsLogic.PageBeyondLastIsEmpty | src/posts/posts.service.ts:164-184 | a page after `last_page` is empty and still reports the full total; it fails only when the store refuses the search pattern |
| PostsLogic.ListingItemPosition | src/posts/posts.service.ts:164-173 | item `i` of a page is item `(page - 1) * limit + i` of the full creation-ordered result |
| PostsLogic.MineFeed | src/posts/posts.service.ts:145-195 | the call fails exactly when the page is below 1 or the store refuses the search pattern; every listed post is the caller's own and its title passes the search when there is one |
| PostsLogic.FollowRows | src/posts/posts.service.ts:207 | the follow rows returned are exactly the caller's |
| PostsLogic.Targets | src/posts/posts.service.ts:216-218 | the collected ids are exactly the `follow` fields of the rows, and there are none exactly when there are no rows |
| PostsLogic.FeedFilter | src/posts/posts.service.ts:216-228 | the `$in` author set is exactly the accounts the caller follows, and the title condition is the search |
| PostsLogic.FollowFeed | src/posts/posts.service.ts:197-265 | a caller who follows nobody gets an empty list with no meta, whatever the page or the search; otherwise the call fails exactly when the page is below 1 or the store refuses the search pattern; every listed post is by an account the caller follows and passes the search |
| PostsLogic.FollowedPostsReachFeed | src/posts/posts.service.ts:207-245 | once the caller follows an account, the feed succeeds exactly when the store accepts the search pattern, and then every post of that account that passes the search is among the posts the feed counts |
| Posts.PostsService.Create | src/posts/posts.service.ts:20-63 | the method produces exactly the response and store of `PostsLogic.CreatePost`, and keeps the store invariant |
| Posts.PostsService.Update | src/posts/posts.service.ts:65-108 | the method produces exactly the response and store of `PostsLogic.UpdatePost`, and keeps the store invariant |
| Posts.PostsService.Delete | src/posts/posts.service.ts:110-143 | the method produces exactly the response and store of `PostsLogic.DeletePost`, and keeps the store invariant |
| Posts.PostsService.Like | src/posts/posts.service.ts:267-317 | the method (counter first, then the row) produces exactly the response and store of `PostsLogic.LikePost`, and keeps the store invariant |
| Posts.PostsService.Unlike | src/posts/posts.service.ts:319-356 | the method (row first, then the counter) produces exactly the response and store of `PostsLogic.UnlikePost`, and keeps the store invariant |
| Posts.PostsService.Comment | src/posts/posts.service.ts:358-407 | the method produces exactly the response and store of `PostsLogic.CommentPost`, and keeps the store invariant |
| Posts.PostsService.FindPage | src/posts/posts.service.ts:147-194 | the step-by-step page arithmetic, the pattern check and the two queries return exactly `PostsLogic.Listing` |
| Posts.PostsService.FindAllMine | src/posts/posts.service.ts:145-195 | returns exactly `PostsLogic.MineFeed` of the current store and changes nothing |
| Posts.PostsService.FindAllFollow | src/posts/posts.service.ts:197-265 | the loop over the follow rows collects exactly the followed accounts, and the method returns exactly `PostsLogic.FollowFeed` of the current store, changing nothing |
| UsersController.Guard | src/users/users.controller.ts:39-99 | update is refused with 401 when the path id is not the caller's; follow and unfollow are refused with 400 when the path id is the caller's; nothing else is refused |
| UsersController.Handle | src/users/users.controller.ts:27-105 | a refused request fails with the guard's error and leaves the store unchanged; otherwise sign-up and log-in go to the service untouched, and update, follow and unfollow go to the service with the path id and the caller id unchanged; log-in and every failure leave the store unchanged |
| UsersController.HandleKeepsNoSelfFollows | src/users/users.controller.ts:72-79 | because of the self-follow guard, no request ever makes an account follow itself |
| UsersController.HandlePreservesValid | src/users/users.controller.ts:27-105 | every request keeps the store invariant |
| UsersController.HandleTouchesOnlyOwnProfile | src/users/users.controller.ts:50-57 | no request changes an existing account other than the caller's own |

## Left out

- The S3 photo upload is left out. It is only a placeholder comment in the source, so posts and accounts never get a photo.
- The internal-error branches are not modelled. These are the branches taken when a save, update or delete returns nothing right after the document was found. Run one request at a time, they cannot happen.
- Concurrency is left out. Two overlapping `like` calls can read the same counter and both write old+1. The model runs requests one at a time, so it proves only the sequential invariant.
- bcrypt, JWT signing and verification, and Mongo's `$regex` compilation and matching are not defined. They are function-valued parameters, and the salt and the clock are arguments.
- Reading the caller's id out of the token is not modelled. That code is in src/shared/shared.service.ts, which is not part of this model; the controller receives the id as part of the request.
- src/posts/posts.controller.ts is not part of this model. It only delegates to the service.
- The framework wiring is not modelled. That covers which routes the middleware guards (all but sign-up and log-in) and versioned routing.
- Request bodies with undeclared fields are not modelled. The global validation pipe is installed without a whitelist (src/main.ts:19), so it keeps fields a DTO does not declare. The model restricts every body to its declared fields.
- UsersLogic.UpdateUser: the source spreads the whole body into `$set` (src/users/users.service.ts:149-151), so extra fields such as `password` or `photo` are written too. "Success changes only email, username and fullname" holds only for bodies with just the declared fields.
- PostsLogic.UpdatePost: the source spreads the whole body into `$set` (src/posts/posts.service.ts:85-88), so extra fields such as `likes`, `comments` or `user_id` overwrite the counters or the author. "Success changes only title, caption and `updated_at`", and with it `Valid` (the counter agreement), holds only for bodies with just the declared fields.
- `parseInt` of the query string is not modelled; page and limit arrive as integers. A limit of 0 or below is not modelled: the limit is a positive integer, and `Math.ceil` is integer ceiling division.
- Listing order is not the `created_at` field itself. Both `findOne`'s natural order and `sort('created_at')` are modelled as ascending id order, which is creation order because ids come from a counter.
- Malformed ids are not modelled. An id that is not a valid ObjectId makes Mongo throw a cast error (a 500); here ids are integers.
- UsersController.HandleKeepsNoSelfFollows, UsersLogic.FollowTwiceConflicts and PostsLogic.FollowedPostsReachFeed: ids are modelled as canonical values, one spelling per account. The source compares path ids as strings in the self-follow guards (src/users/users.controller.ts:72, :94), in the follow rows (src/users/users.service.ts:177-188) and in the feed's `$in` (src/posts/posts.service.ts:216-222). `findById` casts the id instead, so it may also accept another spelling, such as upper-case hex. With such a spelling, a self edge could be stored, a second edge to the same account could be added without a CONFLICT, or a followed account could be missing from the feed. The three lemmas hold only for canonically spelled path ids.
- The token verifier is a parameter, so nothing stops it from accepting `undefined`. The JWT library refuses a missing token with "jwt must be provided", and Auth.UseMissingToken states that this case is a 401.
- PostsLogic.Listing: the message of the 500 for a negative skip is the store's own text. The model fixes one string for it, and only the status is what the source decides. When the page is below 1 and the pattern is also refused, the model reports the offset; which of the two complaints the store raises first is not modelled.
- PostsLogic.LikePost, PostsLogic.UnlikePost, PostsLogic.LikeTwiceConflicts, PostsLogic.LikePostPreservesValid and PostsLogic.UnlikePostPreservesValid: post ids are modelled as canonical values, one spelling per post. The like row stores the path id as a plain string (src/posts/schemas/like.schema.ts:8-9), and the like lookups compare it as a string (src/posts/posts.service.ts:274-277, 326-329). `findById` casts the id instead (src/posts/posts.service.ts:269, 321), so it may also accept another spelling, such as upper-case hex. With such a spelling, a second like by the same caller finds no row, is not a CONFLICT, and raises the counter again, so the counter no longer equals the caller's rows for the post. The five members hold only for canonically spelled path ids.
- Like and follow rows are modelled as sets. Their own document ids are never read by the source.
- Deleting a post leaves its like and comment rows behind, as the source does. The counter invariant speaks only of posts that exist.
