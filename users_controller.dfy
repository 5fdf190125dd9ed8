/** `UsersController`: the `/v1/users` routes. Sign-up and log-in go straight
    to the service; the three routes behind the authorization middleware first
    compare the path's `:id` with the account id carried by the caller's
    token, and throw before the service runs when the comparison fails. */
module UsersController {
  import opened Schemas
  import opened UsersLogic

  const NotProfileOwner := HttpError(UNAUTHORIZED, "You are unauthorized to update this profile")
  const SelfFollow := HttpError(BAD_REQUEST, "Can not follow yourself")
  const SelfUnfollow := HttpError(BAD_REQUEST, "Can not unfollow yourself")

  /** One request to the controller. `caller` is the account id read from
      the caller's token; `id` is the path parameter. */
  datatype Request =
    | SignUpRequest(signUp: SignUpDto)
    | LogInRequest(logIn: LogInDto)
    | UpdateRequest(id: Id, update: UpdateUserDto, caller: Id)
    | FollowRequest(id: Id, caller: Id)
    | UnfollowRequest(id: Id, caller: Id)

  /** The controller's own check, before any service call. */
  function Guard(req: Request): (e: Option<HttpError>)
    ensures e.Some? <==>
      || (req.UpdateRequest? && req.id != req.caller)
      || ((req.FollowRequest? || req.UnfollowRequest?) && req.id == req.caller)
    ensures e.Some? && req.UpdateRequest? ==> e.value == NotProfileOwner
    ensures e.Some? && req.FollowRequest? ==> e.value == SelfFollow
    ensures e.Some? && req.UnfollowRequest? ==> e.value == SelfUnfollow
  {
    match req
    case UpdateRequest(id, _, caller) => if id != caller then Some(NotProfileOwner) else None
    case FollowRequest(id, caller) => if id == caller then Some(SelfFollow) else None
    case UnfollowRequest(id, caller) => if id == caller then Some(SelfUnfollow) else None
    case _ => None
  }

  /** A request end to end: the guard, then the service operation on the
      store. The service's exceptions pass through unchanged. `salt` and
      `now` feed bcrypt and the token signer. */
  function Handle(db: Db, req: Request, crypto: Crypto, salt: Salt, now: Timestamp): (out: (Response, Db))
    requires WellFormed(db)
    ensures Guard(req).Some? ==> out == (Failure(Guard(req).value), db)
    ensures req.LogInRequest? ==> out.1 == db
    ensures out.0.Failure? ==> out.1 == db
    ensures out.1.nextId >= db.nextId
    ensures req.UpdateRequest? && req.id == req.caller ==> out == UpdateUser(db, req.id, req.update)
    ensures req.FollowRequest? && req.id != req.caller ==> out == FollowUser(db, req.id, req.caller)
    ensures req.UnfollowRequest? && req.id != req.caller ==> out == UnfollowUser(db, req.id, req.caller)
    ensures req.SignUpRequest? ==> out == SignUp(db, req.signUp, crypto, salt)
    ensures req.LogInRequest? ==> out.0 == LogIn(db, req.logIn, crypto, now)
  {
    if Guard(req).Some? then (Failure(Guard(req).value), db)
    else
      match req
      case SignUpRequest(dto) => SignUp(db, dto, crypto, salt)
      case LogInRequest(dto) => (LogIn(db, dto, crypto, now), db)
      case UpdateRequest(id, dto, _) => UpdateUser(db, id, dto)
      case FollowRequest(id, caller) => FollowUser(db, id, caller)
      case UnfollowRequest(id, caller) => UnfollowUser(db, id, caller)
  }

  /** Nobody follows themselves. */
  ghost predicate NoSelfFollows(follows: set<Follow>) {
    forall e :: e in follows ==> e.user_id != e.follow
  }

  /** The guards keep the follow graph free of self-loops. */
  lemma HandleKeepsNoSelfFollows(db: Db, req: Request, crypto: Crypto, salt: Salt, now: Timestamp)
    requires WellFormed(db)
    requires NoSelfFollows(db.follows)
    ensures NoSelfFollows(Handle(db, req, crypto, salt, now).1.follows)
  {
    if Guard(req).None? && req.FollowRequest? {
      assert req.id != req.caller;
    }
  }

  /** Every request keeps the store invariant. */
  lemma HandlePreservesValid(db: Db, req: Request, crypto: Crypto, salt: Salt, now: Timestamp)
    requires Valid(db)
    ensures Valid(Handle(db, req, crypto, salt, now).1)
  {
    if Guard(req).None? {
      match req
      case SignUpRequest(dto) => SignUpPreservesValid(db, dto, crypto, salt);
      case LogInRequest(_) =>
      case UpdateRequest(id, dto, _) => UpdateUserPreservesValid(db, id, dto);
      case FollowRequest(_, _) =>
      case UnfollowRequest(_, _) =>
    }
  }

  /** No request changes an existing account other than the caller's own. */
  lemma HandleTouchesOnlyOwnProfile(db: Db, req: Request, crypto: Crypto, salt: Salt, now: Timestamp, k: Id)
    requires WellFormed(db)
    requires k in db.users
    requires req.UpdateRequest? ==> k != req.caller
    ensures var db' := Handle(db, req, crypto, salt, now).1;
      k in db'.users && db'.users[k] == db.users[k]
  {
  }
}
