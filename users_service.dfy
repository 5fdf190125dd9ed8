/** `UsersService`: the account and follow endpoints, issuing one store query
    or write at a time. Each state-changing method is proved to produce the
    response and the new store that the matching function of UsersLogic
    describes, and to keep the store invariant. */
module Users {
  import opened Schemas
  import opened UsersLogic
  import opened Database

  class UsersService {
    const db: Store
    /** bcrypt and the JWT service. */
    const crypto: Crypto

    constructor (db: Store, crypto: Crypto)
      ensures this.db == db && this.crypto == crypto
    {
      this.db := db;
      this.crypto := crypto;
    }

    /** `signUp`; `salt` is the salt bcrypt draws. */
    method SignUp(dto: SignUpDto, salt: Salt) returns (r: Response)
      requires db.Valid()
      modifies db
      ensures db.Valid()
      ensures (r, db.State()) == UsersLogic.SignUp(old(db.State()), dto, crypto, salt)
    {
      ghost var before := db.State();
      ghost var out := UsersLogic.SignUp(before, dto, crypto, salt);
      SignUpPreservesValid(before, dto, crypto, salt);
      var existEmail := EmailHolder(db.State(), dto.email);
      if existEmail.Some? {
        assert out.0 == Failure(EmailTaken);
        return Failure(EmailTaken);
      }
      var existUsername := UsernameHolder(db.State(), dto.username);
      if existUsername.Some? {
        assert out.0 == Failure(UsernameTaken);
        return Failure(UsernameTaken);
      }
      assert out.0.Success?;
      var hash := crypto.hash(dto.password, salt);
      var account := User(dto.email, dto.username, hash, None, None);
      var _ := db.SaveUser(account);
      r := Done("Account " + dto.username + " successfully created. Please login!");
    }

    /** `logIn`; `now` is the time the token is signed at. */
    method LogIn(dto: LogInDto, now: Timestamp) returns (r: Response)
      requires db.Valid()
      ensures r == UsersLogic.LogIn(db.State(), dto, crypto, now)
    {
      var existUser := AccountHolder(db.State(), dto.username);
      if existUser.None? {
        return Failure(UnknownLogin);
      }
      var id := existUser.value;
      var account := db.users[id];
      var passMatch := crypto.compare(dto.password, account.password);
      if !passMatch {
        return Failure(WrongPassword);
      }
      var token := crypto.sign(ClaimsOf(id, account), now);
      r := Success(Reply(OK, LoginSuccess, LoginData(id, token), None));
    }

    /** `update`: the profile fields of account `id`. */
    method Update(id: Id, dto: UpdateUserDto) returns (r: Response)
      requires db.Valid()
      modifies db
      ensures db.Valid()
      ensures (r, db.State()) == UpdateUser(old(db.State()), id, dto)
    {
      ghost var before := db.State();
      UpdateUserPreservesValid(before, id, dto);
      var existEmail := EmailHolder(db.State(), dto.email);
      if existEmail.Some? && existEmail.value != id {
        return Failure(EmailTaken);
      }
      var existUsername := UsernameHolder(db.State(), dto.username);
      if existUsername.Some? && existUsername.value != id {
        return Failure(UsernameTaken);
      }
      var updated := db.FindUserByIdAndUpdate(id,
        (u: User) => u.(email := dto.email, username := dto.username, fullname := Some(dto.fullname)));
      if !updated {
        return Failure(UserNotFound);
      }
      r := Done("Account " + dto.username + " successfully updated");
    }

    /** `follow`: `userID` starts following `id`. */
    method Follow(id: Id, userID: Id) returns (r: Response)
      requires db.Valid()
      modifies db
      ensures db.Valid()
      ensures (r, db.State()) == FollowUser(old(db.State()), id, userID)
    {
      if id !in db.users {
        return Failure(UserNotFound);
      }
      var edge := Schemas.Follow(userID, id);
      if edge in db.follows {
        return Failure(AlreadyFollowed);
      }
      db.SaveFollow(edge);
      r := Done("Success");
    }

    /** `unfollow`: `userID` stops following `id`. */
    method Unfollow(id: Id, userID: Id) returns (r: Response)
      requires db.Valid()
      modifies db
      ensures db.Valid()
      ensures (r, db.State()) == UnfollowUser(old(db.State()), id, userID)
    {
      if id !in db.users {
        return Failure(UserNotFound);
      }
      var unfollowed := db.FindOneFollowAndDelete(Schemas.Follow(userID, id));
      if !unfollowed {
        assert db.follows == old(db.follows);
        return Failure(AlreadyUnfollowed);
      }
      r := Done("Success");
    }
  }
}
