/** What each `UsersService` operation does to the store, as a function from
    the store before the call to the response and the store after it. The
    service class in module Users performs the same steps one query at a
    time and is proved to agree with these functions. */
module UsersLogic {
  import opened Schemas

  datatype SignUpDto = SignUpDto(username: string, password: string, email: string)

  /** `username` may hold either the username or the email of the account. */
  datatype LogInDto = LogInDto(username: string, password: string)

  datatype UpdateUserDto = UpdateUserDto(email: string, username: string, fullname: string)

  /** The payload signed into a login token. */
  datatype Claims = Claims(userID: Id, username: string, email: string, fullname: Option<string>)

  /** The random salt bcrypt draws for each hash. */
  type Salt = nat

  /** The foreign calls: `bcrypt.hash(password, 10)` for a given salt,
      `bcrypt.compare(plaintext, hash)`, and `jwtService.sign(payload)` with
      the configured secret and expiry at a given time. */
  datatype Crypto = Crypto(
    hash: (string, Salt) -> string,
    compare: (string, string) -> bool,
    sign: (Claims, Timestamp) -> string)

  const EmailTaken := HttpError(CONFLICT, "Email already exist")
  const UsernameTaken := HttpError(CONFLICT, "Username is already exist")
  const UnknownLogin := HttpError(NOT_FOUND, "Username or email does not exist")
  const WrongPassword := HttpError(UNAUTHORIZED, "The password you entered is incorrect")
  const UserNotFound := HttpError(NOT_FOUND, "User does not exist")
  const AlreadyFollowed := HttpError(CONFLICT, "User already followed")
  const AlreadyUnfollowed := HttpError(CONFLICT, "User already unfollowed")
  const LoginSuccess := "Login succes"

  ghost predicate EmailInUse(users: map<Id, User>, email: string) {
    exists k :: k in users && users[k].email == email
  }

  ghost predicate UsernameInUse(users: map<Id, User>, username: string) {
    exists k :: k in users && users[k].username == username
  }

  /** `findOne({email})`. */
  function EmailHolder(db: Db, email: string): Option<Id> {
    FindOne(db.users, (u: User) => u.email == email, db.nextId)
  }

  /** `findOne({username})`. */
  function UsernameHolder(db: Db, username: string): Option<Id> {
    FindOne(db.users, (u: User) => u.username == username, db.nextId)
  }

  /** The `$or` condition of log-in: the identifier is the username or the
      email of the account. */
  predicate Identifies(u: User, identifier: string) {
    u.username == identifier || u.email == identifier
  }

  /** `findOne({$or: [{username: identifier}, {email: identifier}]})`. */
  function AccountHolder(db: Db, identifier: string): Option<Id> {
    FindOne(db.users, (u: User) => Identifies(u, identifier), db.nextId)
  }

  /** `id` is the first account, in natural order, that `identifier` names. */
  ghost predicate FirstIdentified(users: map<Id, User>, identifier: string, id: Id) {
    && id in users && Identifies(users[id], identifier)
    && forall k :: 0 <= k < id && k in users ==> !Identifies(users[k], identifier)
  }

  function ClaimsOf(id: Id, u: User): Claims {
    Claims(id, u.username, u.email, u.fullname)
  }

  /** `UsersService.signUp`. */
  function SignUp(db: Db, dto: SignUpDto, crypto: Crypto, salt: Salt): (out: (Response, Db))
    requires WellFormed(db)
    ensures out.0 == Failure(EmailTaken) <==> EmailInUse(db.users, dto.email)
    ensures out.0 == Failure(UsernameTaken) <==>
      !EmailInUse(db.users, dto.email) && UsernameInUse(db.users, dto.username)
    ensures out.0.Failure? ==> out.0 == Failure(EmailTaken) || out.0 == Failure(UsernameTaken)
    ensures out.0.Success? <==> !EmailInUse(db.users, dto.email) && !UsernameInUse(db.users, dto.username)
    ensures out.0.Failure? ==> out.1 == db
    ensures out.0.Success? ==>
      && out.0 == Done("Account " + dto.username + " successfully created. Please login!")
      && db.nextId !in db.users
      && out.1 == db.(users := db.users[db.nextId := User(dto.email, dto.username, crypto.hash(dto.password, salt), None, None)],
                      nextId := db.nextId + 1)
  {
    FindOneFindsAny(db.users, (u: User) => u.email == dto.email, db.nextId);
    FindOneFindsAny(db.users, (u: User) => u.username == dto.username, db.nextId);
    if EmailHolder(db, dto.email).Some? then (Failure(EmailTaken), db)
    else if UsernameHolder(db, dto.username).Some? then (Failure(UsernameTaken), db)
    else
      var account := User(dto.email, dto.username, crypto.hash(dto.password, salt), None, None);
      (Done("Account " + dto.username + " successfully created. Please login!"),
       db.(users := db.users[db.nextId := account], nextId := db.nextId + 1))
  }

  /** `UsersService.logIn`; it reads the store and changes nothing. */
  function LogIn(db: Db, dto: LogInDto, crypto: Crypto, now: Timestamp): (r: Response)
    requires WellFormed(db)
    ensures r == Failure(UnknownLogin) <==> !exists k :: k in db.users && Identifies(db.users[k], dto.username)
    ensures r.Failure? ==> r == Failure(UnknownLogin) || r == Failure(WrongPassword)
    ensures forall id :: FirstIdentified(db.users, dto.username, id) ==>
      (r.Success? <==> crypto.compare(dto.password, db.users[id].password))
    ensures r.Success? ==>
      && r.value.statusCode == OK && r.value.message == LoginSuccess && r.value.meta == None
      && r.value.data.LoginData?
      && FirstIdentified(db.users, dto.username, r.value.data.userID)
      && r.value.data.token == crypto.sign(ClaimsOf(r.value.data.userID, db.users[r.value.data.userID]), now)
  {
    FindOneFindsAny(db.users, (u: User) => Identifies(u, dto.username), db.nextId);
    match AccountHolder(db, dto.username)
    case None => Failure(UnknownLogin)
    case Some(id) =>
      assert forall j: Id :: FirstIdentified(db.users, dto.username, j) ==> j == id by {
        forall j: Id | FirstIdentified(db.users, dto.username, j) ensures j == id {
          assert !(j < id) && !(id < j);
        }
      }
      var account := db.users[id];
      if !crypto.compare(dto.password, account.password) then Failure(WrongPassword)
      else Success(Reply(OK, LoginSuccess, LoginData(id, crypto.sign(ClaimsOf(id, account), now)), None))
  }

  /** `UsersService.update`. The email and username clashes are checked
      first, and only then whether the account exists. */
  function UpdateUser(db: Db, id: Id, dto: UpdateUserDto): (out: (Response, Db))
    requires WellFormed(db)
    ensures UniqueAccounts(db.users) ==>
      (out.0 == Failure(EmailTaken) <==> exists k :: k in db.users && k != id && db.users[k].email == dto.email)
    ensures UniqueAccounts(db.users) ==>
      (out.0 == Failure(UsernameTaken) <==>
        && (forall k :: k in db.users && k != id ==> db.users[k].email != dto.email)
        && exists k :: k in db.users && k != id && db.users[k].username == dto.username)
    ensures UniqueAccounts(db.users) ==>
      (out.0 == Failure(UserNotFound) <==>
        && id !in db.users
        && (forall k :: k in db.users ==> db.users[k].email != dto.email && db.users[k].username != dto.username))
    ensures out.0.Failure? ==>
      out.0 == Failure(EmailTaken) || out.0 == Failure(UsernameTaken) || out.0 == Failure(UserNotFound)
    ensures UniqueAccounts(db.users) ==>
      (out.0.Success? <==>
        && id in db.users
        && (forall k :: k in db.users && k != id ==>
              db.users[k].email != dto.email && db.users[k].username != dto.username))
    ensures out.0.Failure? ==> out.1 == db
    ensures out.0.Success? ==>
      && id in db.users
      && out.0 == Done("Account " + dto.username + " successfully updated")
      && out.1 == db.(users := db.users[id := db.users[id].(email := dto.email, username := dto.username,
                                                          fullname := Some(dto.fullname))])
  {
    var byEmail := EmailHolder(db, dto.email);
    var byUsername := UsernameHolder(db, dto.username);
    if byEmail.Some? && byEmail.value != id then (Failure(EmailTaken), db)
    else if byUsername.Some? && byUsername.value != id then (Failure(UsernameTaken), db)
    else if id !in db.users then (Failure(UserNotFound), db)
    else
      var account := db.users[id].(email := dto.email, username := dto.username, fullname := Some(dto.fullname));
      (Done("Account " + dto.username + " successfully updated"), db.(users := db.users[id := account]))
  }

  /** `UsersService.follow`: `userID` starts following `id`. */
  function FollowUser(db: Db, id: Id, userID: Id): (out: (Response, Db))
    ensures out.0 == Failure(UserNotFound) <==> id !in db.users
    ensures out.0 == Failure(AlreadyFollowed) <==> id in db.users && Follow(userID, id) in db.follows
    ensures out.0.Failure? ==> out.0 == Failure(UserNotFound) || out.0 == Failure(AlreadyFollowed)
    ensures out.0.Failure? ==> out.1 == db
    ensures out.0.Success? ==>
      && out.0 == Done("Success")
      && Follow(userID, id) !in db.follows
      && out.1 == db.(follows := db.follows + {Follow(userID, id)})
  {
    if id !in db.users then (Failure(UserNotFound), db)
    else if Follow(userID, id) in db.follows then (Failure(AlreadyFollowed), db)
    else (Done("Success"), db.(follows := db.follows + {Follow(userID, id)}))
  }

  /** `UsersService.unfollow`: `userID` stops following `id`. */
  function UnfollowUser(db: Db, id: Id, userID: Id): (out: (Response, Db))
    ensures out.0 == Failure(UserNotFound) <==> id !in db.users
    ensures out.0 == Failure(AlreadyUnfollowed) <==> id in db.users && Follow(userID, id) !in db.follows
    ensures out.0.Failure? ==> out.0 == Failure(UserNotFound) || out.0 == Failure(AlreadyUnfollowed)
    ensures out.0.Failure? ==> out.1 == db
    ensures out.0.Success? ==>
      && out.0 == Done("Success")
      && Follow(userID, id) in db.follows
      && out.1 == db.(follows := db.follows - {Follow(userID, id)})
  {
    if id !in db.users then (Failure(UserNotFound), db)
    else if Follow(userID, id) !in db.follows then (Failure(AlreadyUnfollowed), db)
    else (Done("Success"), db.(follows := db.follows - {Follow(userID, id)}))
  }

  // ---------------------------------------------------------------------
  // Properties
  // ---------------------------------------------------------------------

  lemma SignUpPreservesValid(db: Db, dto: SignUpDto, crypto: Crypto, salt: Salt)
    requires Valid(db)
    ensures Valid(SignUp(db, dto, crypto, salt).1)
  {
    var out := SignUp(db, dto, crypto, salt);
    if out.0.Success? {
      var users := out.1.users;
      forall a, b | a in users && b in users && a != b
        ensures users[a].email != users[b].email && users[a].username != users[b].username
      {
        if a != db.nextId && b != db.nextId {
          assert users[a] == db.users[a] && users[b] == db.users[b];
        } else if a == db.nextId {
          assert b in db.users && users[b] == db.users[b];
        } else {
          assert a in db.users && users[a] == db.users[a];
        }
      }
    }
  }

  lemma UpdateUserPreservesValid(db: Db, id: Id, dto: UpdateUserDto)
    requires Valid(db)
    ensures Valid(UpdateUser(db, id, dto).1)
  {
    var out := UpdateUser(db, id, dto);
    if out.0.Success? {
      var users := out.1.users;
      forall a, b | a in users && b in users && a != b
        ensures users[a].email != users[b].email && users[a].username != users[b].username
      {
        if a != id && b != id {
          assert users[a] == db.users[a] && users[b] == db.users[b];
        } else if a == id {
          assert users[b] == db.users[b];
        } else {
          assert users[a] == db.users[a];
        }
      }
    }
  }

  /** Signing up twice with the same email, or with the same username, is a
      conflict the second time, and changes nothing. */
  lemma SignUpTwiceConflicts(db: Db, dto: SignUpDto, again: SignUpDto, crypto: Crypto, salt: Salt, salt': Salt)
    requires WellFormed(db)
    requires SignUp(db, dto, crypto, salt).0.Success?
    requires again.email == dto.email || again.username == dto.username
    ensures var db' := SignUp(db, dto, crypto, salt).1;
      && WellFormed(db')
      && SignUp(db', again, crypto, salt').0.Failure?
      && SignUp(db', again, crypto, salt').0.error.status == CONFLICT
      && SignUp(db', again, crypto, salt').1 == db'
  {
    var db' := SignUp(db, dto, crypto, salt).1;
    assert db'.users[db.nextId].email == dto.email && db'.users[db.nextId].username == dto.username;
    if again.email == dto.email {
      assert EmailInUse(db'.users, again.email);
    } else {
      assert UsernameInUse(db'.users, again.username);
    }
  }

  /** A fresh account can log in with its email and password, unless an older
      account already uses that email as its username. */
  lemma LogInAfterSignUp(db: Db, dto: SignUpDto, crypto: Crypto, salt: Salt, now: Timestamp)
    requires WellFormed(db)
    requires SignUp(db, dto, crypto, salt).0.Success?
    requires !UsernameInUse(db.users, dto.email)
    requires crypto.compare(dto.password, crypto.hash(dto.password, salt))
    ensures var r := LogIn(SignUp(db, dto, crypto, salt).1, LogInDto(dto.email, dto.password), crypto, now);
      r.Success? && r.value.data.userID == db.nextId
  {
    var db' := SignUp(db, dto, crypto, salt).1;
    assert FirstIdentified(db'.users, dto.email, db.nextId) by {
      forall k | 0 <= k < db.nextId && k in db'.users
        ensures !Identifies(db'.users[k], dto.email)
      {
        assert k in db.users && db'.users[k] == db.users[k];
      }
    }
  }

  /** `follow` then `unfollow` of the same target restores the edges. */
  lemma FollowThenUnfollow(db: Db, id: Id, userID: Id)
    requires FollowUser(db, id, userID).0.Success?
    ensures UnfollowUser(FollowUser(db, id, userID).1, id, userID) == (Done("Success"), db)
  {
    var edge := Follow(userID, id);
    assert db.follows + {edge} - {edge} == db.follows;
  }

  /** `unfollow` then `follow` of the same target restores the edges. */
  lemma UnfollowThenFollow(db: Db, id: Id, userID: Id)
    requires UnfollowUser(db, id, userID).0.Success?
    ensures FollowUser(UnfollowUser(db, id, userID).1, id, userID) == (Done("Success"), db)
  {
    var edge := Follow(userID, id);
    assert db.follows - {edge} + {edge} == db.follows;
  }

  /** Following the same target a second time is a conflict and changes
      nothing. */
  lemma FollowTwiceConflicts(db: Db, id: Id, userID: Id)
    requires FollowUser(db, id, userID).0.Success?
    ensures var db' := FollowUser(db, id, userID).1;
      FollowUser(db', id, userID) == (Failure(AlreadyFollowed), db')
  {
  }
}
