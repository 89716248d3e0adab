/** The request guard and the quota rule (api/dependencies.py). Both only read
    the store, so they are functions of a snapshot of its tables. */
module Dependencies {
  import opened Common
  import opened Models
  import opened HttpErrors

  /** Tasks a free account may own. */
  const FreeTaskLimit: nat := 25

  /** The claims `decode_token` hands back; `sub` is `payload.get("sub")`. */
  datatype Claims = Claims(sub: Option<string>)

  /** The password hasher and the JWT issuer/verifier of `api/authentication`,
      which is not part of this model: any functions of these types.
      `decode` answers `None` for a malformed, forged or expired token. */
  datatype Crypto = Crypto(
    hash: string -> string,            // get_password_hash(password)
    verify: (string, string) -> bool,  // verify_password(password, password_hash)
    issue: string -> string,           // create_access_token(data={"sub": username})
    decode: string -> Option<Claims>)  // decode_token(token)

  /** The `sub` claim of a token that decodes, if it has one. */
  function TokenSubject(crypto: Crypto, token: string): Option<string> {
    match crypto.decode(token)
    case None => None
    case Some(claims) => claims.sub
  }

  /** `get_current_user`: resolve a bearer token to the user named by its subject.
      Every failure is the same 401 "Could not validate credentials". */
  function GetCurrentUser(crypto: Crypto, token: string, users: seq<User>): (r: Result<User, ApiError>)
    ensures r.Failure? ==> r.error == CredentialsInvalid
    ensures crypto.decode(token).None? ==> r.Failure?
    ensures r.Success? <==>
      TokenSubject(crypto, token).Some? &&
      exists u :: u in users && u.username == TokenSubject(crypto, token).value
    ensures r.Success? ==> r.value in users && Some(r.value.username) == TokenSubject(crypto, token)
  {
    var payload := crypto.decode(token);
    if payload.None? then Failure(CredentialsInvalid)
    else if payload.value.sub.None? then Failure(CredentialsInvalid)
    else
      var name := payload.value.sub.value;
      match FindFirst(users, NameIs(name))
      case None =>
        assert forall u :: u in users ==> u.username != name by {
          forall u | u in users ensures u.username != name {
            var j :| 0 <= j < |users| && users[j] == u;
            assert !NameIs(name)(users[j]);
          }
        }
        Failure(CredentialsInvalid)
      case Some(k) => Success(users[k])
  }

  /** With unique usernames the guard resolves a subject to exactly the user
      holding that username. */
  lemma GetCurrentUserIsThatUser(crypto: Crypto, token: string, users: seq<User>, u: User)
    requires UniqueUsers(users) && u in users
    requires TokenSubject(crypto, token) == Some(u.username)
    ensures GetCurrentUser(crypto, token, users) == Success(u)
  {
    var r := GetCurrentUser(crypto, token, users);
    var j :| 0 <= j < |users| && users[j] == u;
    var k :| 0 <= k < |users| && users[k] == r.value;
    assert users[k].username == users[j].username;
  }

  /** `require_subscription_active`: hands on the user the guard resolved and
      checks nothing further (in particular not the subscription flag): it
      admits exactly the tokens whose subject names a stored user. */
  function RequireSubscriptionActive(crypto: Crypto, token: string, users: seq<User>): (r: Result<User, ApiError>)
    ensures r.Failure? ==> r.error == CredentialsInvalid
    ensures r.Success? <==>
      TokenSubject(crypto, token).Some? &&
      exists u :: u in users && u.username == TokenSubject(crypto, token).value
    ensures r.Success? ==> r.value in users && Some(r.value.username) == TokenSubject(crypto, token)
  {
    var user := GetCurrentUser(crypto, token, users);
    user
  }

  /** Despite its name, the subscription guard lets a free user through. */
  lemma FreeUserPassesSubscriptionGuard(crypto: Crypto, token: string, users: seq<User>, u: User)
    requires UniqueUsers(users) && u in users && !u.isSubscribed
    requires TokenSubject(crypto, token) == Some(u.username)
    ensures RequireSubscriptionActive(crypto, token, users) == Success(u)
    ensures !RequireSubscriptionActive(crypto, token, users).value.isSubscribed
  {
    GetCurrentUserIsThatUser(crypto, token, users, u);
  }

  /** `check_subscription_limits`: a subscribed user may always create; a free
      user only while owning fewer than 25 tasks. */
  function CheckSubscriptionLimits(user: User, tasks: seq<Task>): (allowed: bool)
    ensures user.isSubscribed ==> allowed
    ensures !user.isSubscribed ==> (allowed <==> |UserTasks(tasks, user.id)| < FreeTaskLimit)
  {
    if user.isSubscribed then true
    else
      var taskCount := |Filter(tasks, OwnedBy(user.id))|;
      if taskCount >= FreeTaskLimit then false else true
  }

  /** The quota decision depends only on the user's own tasks: rows owned by
      anyone else (or by nobody) never change it. */
  lemma {:induction false} QuotaIgnoresOtherOwners(user: User, tasks: seq<Task>, others: seq<Task>)
    requires forall t :: t in others ==> t.userId != Some(user.id)
    ensures CheckSubscriptionLimits(user, tasks + others) == CheckSubscriptionLimits(user, tasks)
  {
    FilterAppend(tasks, others, OwnedBy(user.id));
    FilterEmpty(others, OwnedBy(user.id));
  }

  /** The boundary of the free tier: with 24 own tasks a free user may create
      one more, and once that 25th task is stored the next create is refused. */
  lemma {:induction false} FreeTierBoundary(user: User, tasks: seq<Task>, t: Task)
    requires !user.isSubscribed
    requires |UserTasks(tasks, user.id)| == FreeTaskLimit - 1
    requires t.userId == Some(user.id)
    ensures CheckSubscriptionLimits(user, tasks)
    ensures !CheckSubscriptionLimits(user, tasks + [t])
  {
    FilterAppend(tasks, [t], OwnedBy(user.id));
    assert Filter([t], OwnedBy(user.id)) == [t];
  }

  /** A create admitted by the quota keeps a free user within the limit:
      free users never end up owning more than 25 tasks through create. */
  lemma {:induction false} AdmittedCreateStaysWithinLimit(user: User, tasks: seq<Task>, t: Task)
    requires CheckSubscriptionLimits(user, tasks)
    requires t.userId == Some(user.id)
    ensures !user.isSubscribed ==> |UserTasks(tasks + [t], user.id)| <= FreeTaskLimit
  {
    FilterAppend(tasks, [t], OwnedBy(user.id));
    assert Filter([t], OwnedBy(user.id)) == [t];
  }
}
