/** Registration, login and identity lookup (api/routes/auth.py). */
module AuthRoutes {
  import opened Common
  import opened Models
  import opened HttpErrors
  import opened Dependencies

  /** Request body of `/auth/register` and the login form. */
  datatype UserCreate = UserCreate(username: string, password: string)

  /** `UserResponse`: what the API shows of a user; the password hash is not a field. */
  datatype UserResponse = UserResponse(id: Id, username: string, isSubscribed: bool, createdAt: nat)

  /** `Token`: the login answer. */
  datatype TokenResponse = TokenResponse(accessToken: string, tokenType: string)

  /** Serialisation through `response_model=UserResponse`. */
  function ToUserResponse(u: User): UserResponse {
    UserResponse(u.id, u.username, u.isSubscribed, u.createdAt)
  }

  /** The projection does not depend on the password hash, so no response can reveal it. */
  lemma ResponseOmitsPasswordHash(u: User, otherHash: string)
    ensures ToUserResponse(u.(passwordHash := otherHash)) == ToUserResponse(u)
  {
  }

  predicate UsernameTakenIn(users: seq<User>, name: string) {
    exists u :: u in users && u.username == name
  }

  /** `POST /auth/register`. A taken username is refused before anything is
      written; otherwise exactly one row is added, holding the hash of the
      password, not subscribed. `newId` is the uuid4 the column default draws;
      should it collide, the primary key rejects the commit. */
  method Register(db: Database, crypto: Crypto, data: UserCreate, newId: Id)
    returns (r: Result<UserResponse, ApiError>)
    requires db.Valid()
    modifies db
    ensures db.Valid()
    ensures db.tasks == old(db.tasks)
    ensures UsernameTakenIn(old(db.users), data.username) ==>
      r == Failure(UsernameTaken) && db.Snapshot() == old(db.Snapshot())
    ensures !UsernameTakenIn(old(db.users), data.username) && HasUser(old(db.users), newId) ==>
      r == Failure(IntegrityError) && db.Snapshot() == old(db.Snapshot())
    ensures r.Success? <==> !UsernameTakenIn(old(db.users), data.username) && !HasUser(old(db.users), newId)
    ensures r.Success? ==>
      var added := NewUser(newId, data.username, crypto.hash(data.password), old(db.clock) + 1);
      && db.users == old(db.users) + [added]
      && db.clock == old(db.clock) + 1
      && r.value == ToUserResponse(added)
      && !r.value.isSubscribed
    ensures r.Success? || r == Failure(UsernameTaken) ==> UsernameTakenIn(db.users, data.username)
  {
    var existing := FindFirst(db.users, NameIs(data.username));
    if existing.Some? {
      assert db.users[existing.value] in db.users;
      return Failure(UsernameTaken);
    }
    assert !UsernameTakenIn(db.users, data.username) by {
      forall u | u in db.users ensures u.username != data.username {
        var j :| 0 <= j < |db.users| && db.users[j] == u;
        assert !NameIs(data.username)(db.users[j]);
      }
    }
    var hashed := crypto.hash(data.password);
    // db.add(new_user); db.commit(): the primary key refuses a colliding id
    var clash := FindFirst(db.users, IdIs(newId));
    if clash.Some? {
      assert db.users[clash.value] in db.users;
      return Failure(IntegrityError);
    }
    assert !HasUser(db.users, newId) by {
      forall u | u in db.users ensures u.id != newId {
        var j :| 0 <= j < |db.users| && db.users[j] == u;
        assert !IdIs(newId)(db.users[j]);
      }
    }
    var now := db.clock + 1;
    var added := NewUser(newId, data.username, hashed, now);
    ghost var before := db.users;
    db.users := db.users + [added];
    db.clock := now;
    assert UniqueUsers(db.users) by {
      forall a, b | 0 <= a < b < |db.users|
        ensures db.users[a].id != db.users[b].id && db.users[a].username != db.users[b].username
      {
        if b == |before| {
          assert db.users[a] == before[a] && before[a] in before;
        } else {
          assert db.users[a] == before[a] && db.users[b] == before[b];
        }
      }
    }
    assert OwnersExist(db.users, db.tasks) by {
      forall t | t in db.tasks && t.userId.Some? ensures HasUser(db.users, t.userId.value) {
        var v :| v in before && v.id == t.userId.value;
        assert v in db.users;
      }
    }
    assert db.users[|before|] == added;
    r := Success(ToUserResponse(added));
  }

  /** `POST /auth/login`. An unknown username and a wrong password give the same
      401; success issues a bearer token whose subject is the username. It only reads. */
  function Login(crypto: Crypto, users: seq<User>, form: UserCreate): (r: Result<TokenResponse, ApiError>)
    ensures r.Failure? ==> r.error == IncorrectLogin
    ensures !UsernameTakenIn(users, form.username) ==> r == Failure(IncorrectLogin)
    ensures r.Success? ==>
      exists u :: u in users && u.username == form.username && crypto.verify(form.password, u.passwordHash)
    ensures UniqueUsers(users) ==>
      (r.Success? <==>
        exists u :: u in users && u.username == form.username && crypto.verify(form.password, u.passwordHash))
    ensures r.Success? ==> r.value == TokenResponse(crypto.issue(form.username), "bearer")
  {
    match FindFirst(users, NameIs(form.username))
    case None =>
      assert !UsernameTakenIn(users, form.username) by {
        forall u | u in users ensures u.username != form.username {
          var j :| 0 <= j < |users| && users[j] == u;
          assert !NameIs(form.username)(users[j]);
        }
      }
      Failure(IncorrectLogin)
    case Some(k) =>
      var user := users[k];
      assert UniqueUsers(users) ==> forall u :: u in users && u.username == form.username ==> u == user by {
        if UniqueUsers(users) {
          forall u | u in users && u.username == form.username ensures u == user {
            var j :| 0 <= j < |users| && users[j] == u;
            assert users[j].username == users[k].username;
          }
        }
      }
      if !crypto.verify(form.password, user.passwordHash) then Failure(IncorrectLogin)
      else Success(TokenResponse(crypto.issue(user.username), "bearer"))
  }

  /** `GET /auth/me`: exactly the user the guard resolved, as a `UserResponse`. */
  function GetCurrentUserInfo(crypto: Crypto, token: string, users: seq<User>): (r: Result<UserResponse, ApiError>)
    ensures r.Failure? ==> r == Failure(CredentialsInvalid)
    ensures r.Success? <==> GetCurrentUser(crypto, token, users).Success?
    ensures r.Success? ==> r.value == ToUserResponse(GetCurrentUser(crypto, token, users).value)
    ensures r.Success? ==> exists u :: u in users && r.value == ToUserResponse(u) &&
                                       Some(u.username) == TokenSubject(crypto, token)
  {
    match GetCurrentUser(crypto, token, users)
    case Failure(e) => Failure(e)
    case Success(u) => Success(ToUserResponse(u))
  }

  /** Logging in and then presenting the token to `/auth/me` (before it
      expires, i.e. while it decodes back to its subject) yields the user who
      logged in. */
  lemma LoginThenMe(crypto: Crypto, users: seq<User>, form: UserCreate)
    requires UniqueUsers(users)
    requires Login(crypto, users, form).Success?
    requires crypto.decode(crypto.issue(form.username)) == Some(Claims(Some(form.username)))
    ensures var me := GetCurrentUserInfo(crypto, Login(crypto, users, form).value.accessToken, users);
            me.Success? && me.value.username == form.username
  {
    var token := Login(crypto, users, form).value.accessToken;
    assert TokenSubject(crypto, token) == Some(form.username);
    var u :| u in users && u.username == form.username && crypto.verify(form.password, u.passwordHash);
    GetCurrentUserIsThatUser(crypto, token, users, u);
  }

  /** A user just registered can log in with the same password, provided the
      hasher's `verify` accepts what its `hash` produced. */
  lemma RegisterThenLogin(crypto: Crypto, users: seq<User>, data: UserCreate, newId: Id, now: nat)
    requires UniqueUsers(users) && !UsernameTakenIn(users, data.username) && !HasUser(users, newId)
    requires crypto.verify(data.password, crypto.hash(data.password))
    ensures Login(crypto, users + [NewUser(newId, data.username, crypto.hash(data.password), now)], data)
            == Success(TokenResponse(crypto.issue(data.username), "bearer"))
  {
    var added := NewUser(newId, data.username, crypto.hash(data.password), now);
    var after := users + [added];
    assert after[|users|] == added;
    assert UniqueUsers(after) by {
      forall a, b | 0 <= a < b < |after|
        ensures after[a].id != after[b].id && after[a].username != after[b].username
      {
        if b == |users| {
          assert after[a] == users[a] && users[a] in users;
        } else {
          assert after[a] == users[a] && after[b] == users[b];
        }
      }
    }
  }
}
