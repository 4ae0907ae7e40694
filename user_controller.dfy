/**
 * The account handlers of the SmartTrack API: register, login, logout,
 * refresh, change password, update profile and "me", over a user table keyed
 * by id. Signed tokens and password hashes are abstracted: a token carries
 * its subject, issue time and kind, and the outcome of checking its signature
 * and expiry is an input.
 */
module UserController {
  import opened Wrappers
  import opened ApplicationSchema
  import Text

  datatype Role = Student | Admin

  /** The role a newly registered user receives. */
  const DefaultRole := Student

  /** A stored password: the one-way hash of the plain text. */
  datatype Password = Hashed(plain: string)

  /** matchPassword: whether a candidate hashes to the stored password. */
  predicate PasswordMatches(p: Password, candidate: string) {
    p == Hashed(candidate)
  }

  datatype TokenKind = Access | Refresh

  /**
   * A signed token `{ id: subject }` with its `iat` claim, the issue time in
   * whole seconds; the kind fixes its expiry (15 minutes or 7 days). Signing
   * is deterministic, so two tokens of one kind for one subject issued in the
   * same second are the same token.
   */
  datatype Token = Jwt(subject: Id, issuedAt: int, kind: TokenKind)

  /** The `iat` a token signed at `now` (milliseconds) carries: the floor of now / 1000. */
  function IssuedAt(now: Date): int {
    now / 1000
  }

  datatype User = User(
    name: string,
    email: string,
    password: Password,
    role: Role,
    skills: seq<string>,
    /** The live refresh token, None once cleared by logout. */
    refreshToken: Option<Token>)

  datatype Profile = Profile(id: Id, name: string, email: string, role: Role)

  /** The reply to register and login: the profile and access token in the body, the refresh token in the cookie. */
  datatype SignedIn = SignedIn(profile: Profile, token: Token, cookie: Token)

  /** The reply to "me" and to a profile update. */
  datatype Account = Account(profile: Profile, skills: seq<string>)

  datatype AuthFailure =
    | UserExists           // 400 'User already exists'
    | InvalidCredentials   // 401 'Invalid email or password'
    | MissingPasswords     // 400 'Please provide current and new password'
    | PasswordTooShort     // 400 'New password must be at least 6 characters'
    | UserNotFound         // 404 'User not found'
    | WrongCurrentPassword // 401 'Current password is incorrect'
    | Unauthorized         // 401 'Unauthorized'
    | Forbidden            // 403 'Forbidden'
    | EmailTaken           // the save rejected by the unique email index

  function HttpStatus(f: AuthFailure): nat {
    match f
    case UserExists => 400
    case InvalidCredentials => 401
    case MissingPasswords => 400
    case PasswordTooShort => 400
    case UserNotFound => 404
    case WrongCurrentPassword => 401
    case Unauthorized => 401
    case Forbidden => 403
    case EmailTaken => 500
  }

  /** The reply to logout: 204 No Content, or 200 'Cookie cleared'. */
  datatype LogoutReply = NoContent | CookieCleared

  /** The reply of a handler and the user table it leaves behind. */
  datatype Step<R> = Step(reply: R, users: map<Id, User>)

  /** The minimum length of a new password, in UTF-16 code units. */
  const MinPasswordLength := 6

  ghost predicate UniqueEmails(users: map<Id, User>) {
    forall a, b :: a in users && b in users && a != b ==> users[a].email != users[b].email
  }

  /** Every stored refresh token was signed for the user holding it. */
  ghost predicate TokensOwned(users: map<Id, User>) {
    forall id :: id in users && users[id].refreshToken.Some? ==> users[id].refreshToken.value.subject == id
  }

  /** The table invariant: ids below the next fresh id, unique emails, owned tokens. */
  ghost predicate Consistent(users: map<Id, User>, nextId: Id) {
    && (forall id :: id in users ==> id < nextId)
    && UniqueEmails(users)
    && TokensOwned(users)
  }

  /** findOne({ email }). */
  ghost function EmailHolder(users: map<Id, User>, email: string): (r: Option<Id>)
    ensures r.Some? ==> r.value in users && users[r.value].email == email
    ensures r.None? ==> forall id :: id in users ==> users[id].email != email
  {
    if exists id :: id in users && users[id].email == email then
      var id :| id in users && users[id].email == email; Some(id)
    else None
  }

  /** findOne({ refreshToken }). */
  ghost function TokenHolder(users: map<Id, User>, t: Token): (r: Option<Id>)
    ensures r.Some? ==> r.value in users && users[r.value].refreshToken == Some(t)
    ensures r.None? ==> forall id :: id in users ==> users[id].refreshToken != Some(t)
  {
    if exists id :: id in users && users[id].refreshToken == Some(t) then
      var id :| id in users && users[id].refreshToken == Some(t); Some(id)
    else None
  }

  lemma EmailHolderIs(users: map<Id, User>, email: string, id: Id)
    requires UniqueEmails(users) && id in users && users[id].email == email
    ensures EmailHolder(users, email) == Some(id)
  {
  }

  /** With owned tokens, a token can only be held by its subject. */
  lemma TokenHolderIs(users: map<Id, User>, t: Token, id: Id)
    requires TokensOwned(users) && id in users && users[id].refreshToken == Some(t)
    ensures TokenHolder(users, t) == Some(id)
  {
  }

  function ProfileOf(id: Id, u: User): Profile {
    Profile(id, u.name, u.email, u.role)
  }

  /**
   * registerUser: an email already in use is refused and nothing is
   * created; otherwise one user with the default role and a hashed
   * password is added, holding the refresh token it is issued.
   */
  ghost function RegisterStep(users: map<Id, User>, nextId: Id, name: string, email: string, password: string,
                              now: Date): (s: Step<Result<SignedIn, AuthFailure>>)
    ensures s.reply.Err? <==> exists id :: id in users && users[id].email == email
    ensures s.reply.Err? ==> s.reply.error == UserExists && s.users == users
    ensures s.reply.Ok? ==>
      && s.users.Keys == users.Keys + {nextId}
      && (forall id :: id in users && id != nextId ==> s.users[id] == users[id])
      && s.users[nextId].email == email && s.users[nextId].name == name
      && s.users[nextId].role == DefaultRole
      && PasswordMatches(s.users[nextId].password, password)
      && s.users[nextId].refreshToken == Some(s.reply.value.cookie)
      && s.reply.value.cookie == Jwt(nextId, IssuedAt(now), Refresh)
      && s.reply.value.token == Jwt(nextId, IssuedAt(now), Access)
      && s.reply.value.profile == Profile(nextId, name, email, DefaultRole)
  {
    if EmailHolder(users, email).Some? then Step(Err(UserExists), users)
    else
      var refresh := Jwt(nextId, IssuedAt(now), Refresh);
      var u := User(name, email, Hashed(password), DefaultRole, [], Some(refresh));
      Step(Ok(SignedIn(ProfileOf(nextId, u), Jwt(nextId, IssuedAt(now), Access), refresh)), users[nextId := u])
  }

  /**
   * loginUser: the user with that email, if the password matches, receives
   * a new refresh token that replaces the stored one; an unknown email and
   * a wrong password are refused alike.
   */
  ghost function LoginStep(users: map<Id, User>, email: string, password: string, now: Date)
    : (s: Step<Result<SignedIn, AuthFailure>>)
    ensures s.reply.Err? ==> s.reply.error == InvalidCredentials && s.users == users
    ensures s.reply.Ok? ==>
      var id := s.reply.value.profile.id;
      && id in users && users[id].email == email && PasswordMatches(users[id].password, password)
      && s.reply.value.profile == ProfileOf(id, users[id])
      && s.reply.value.cookie == Jwt(id, IssuedAt(now), Refresh)
      && s.reply.value.token == Jwt(id, IssuedAt(now), Access)
      && s.users == users[id := users[id].(refreshToken := Some(s.reply.value.cookie))]
  {
    match EmailHolder(users, email)
    case None => Step(Err(InvalidCredentials), users)
    case Some(id) =>
      if !PasswordMatches(users[id].password, password) then Step(Err(InvalidCredentials), users)
      else
        var refresh := Jwt(id, IssuedAt(now), Refresh);
        Step(Ok(SignedIn(ProfileOf(id, users[id]), Jwt(id, IssuedAt(now), Access), refresh)),
             users[id := users[id].(refreshToken := Some(refresh))])
  }

  /**
   * logoutUser: without a cookie, or with a token nobody holds, 204 and no
   * change; otherwise the holder's refresh token is cleared.
   */
  ghost function LogoutStep(users: map<Id, User>, cookie: Option<Token>): (s: Step<LogoutReply>)
    ensures s.reply == NoContent <==> cookie.None? || forall id :: id in users ==> users[id].refreshToken != cookie
    ensures s.reply == NoContent ==> s.users == users
    ensures s.reply == CookieCleared ==>
      exists id :: id in users && users[id].refreshToken == cookie
                   && s.users == users[id := users[id].(refreshToken := None)]
  {
    if cookie.None? then Step(NoContent, users)
    else
      match TokenHolder(users, cookie.value)
      case None => Step(NoContent, users)
      case Some(id) => Step(CookieCleared, users[id := users[id].(refreshToken := None)])
  }

  /**
   * refreshAccessToken: 401 without a cookie; 403 when nobody holds the
   * token, when its signature or expiry fails (`verified` is false) or when
   * its subject is not the holder; otherwise a fresh access token for the
   * holder. The table is never changed.
   */
  ghost function RefreshOutcome(users: map<Id, User>, cookie: Option<Token>, verified: bool, now: Date)
    : (r: Result<Token, AuthFailure>)
    ensures cookie.None? <==> r == Err(Unauthorized)
    ensures r.Ok? ==>
      && cookie.Some? && verified
      && cookie.value.subject in users
      && users[cookie.value.subject].refreshToken == cookie
    ensures r.Ok? ==> r.value == Jwt(cookie.value.subject, IssuedAt(now), Access)
    ensures r.Err? && cookie.Some? ==> r.error == Forbidden
  {
    if cookie.None? then Err(Unauthorized)
    else
      match TokenHolder(users, cookie.value)
      case None => Err(Forbidden)
      case Some(id) =>
        if !verified || cookie.value.subject != id then Err(Forbidden)
        else Ok(Jwt(id, IssuedAt(now), Access))
  }

  /**
   * changePassword: the checks run in order (both fields given, new one
   * long enough, user exists, current one matches) and the password is
   * replaced only when all pass.
   */
  ghost function ChangePasswordStep(users: map<Id, User>, caller: Id, currentPassword: Option<string>, newPassword: Option<string>)
    : (s: Step<Result<(), AuthFailure>>)
    ensures !Supplied(currentPassword) || !Supplied(newPassword) ==> s.reply == Err(MissingPasswords)
    ensures Supplied(currentPassword) && Supplied(newPassword) && Text.Utf16Length(newPassword.value) < MinPasswordLength
            ==> s.reply == Err(PasswordTooShort)
    ensures Supplied(currentPassword) && Supplied(newPassword) && Text.Utf16Length(newPassword.value) >= MinPasswordLength
            ==> (caller !in users ==> s.reply == Err(UserNotFound))
    ensures Supplied(currentPassword) && Supplied(newPassword) && Text.Utf16Length(newPassword.value) >= MinPasswordLength
            ==> (caller in users && !PasswordMatches(users[caller].password, currentPassword.value)
                 ==> s.reply == Err(WrongCurrentPassword))
    ensures s.reply.Ok? <==>
      && Supplied(currentPassword) && Supplied(newPassword) && Text.Utf16Length(newPassword.value) >= MinPasswordLength
      && caller in users && PasswordMatches(users[caller].password, currentPassword.value)
    ensures s.reply.Err? ==> s.users == users
    ensures s.reply.Ok? ==> s.users == users[caller := users[caller].(password := Hashed(newPassword.value))]
  {
    if !Supplied(currentPassword) || !Supplied(newPassword) then Step(Err(MissingPasswords), users)
    else if Text.Utf16Length(newPassword.value) < MinPasswordLength then Step(Err(PasswordTooShort), users)
    else if caller !in users then Step(Err(UserNotFound), users)
    else if !PasswordMatches(users[caller].password, currentPassword.value) then Step(Err(WrongCurrentPassword), users)
    else Step(Ok(()), users[caller := users[caller].(password := Hashed(newPassword.value))])
  }

  /**
   * In a consistent table a refresh succeeds exactly for a verified token
   * that its own subject still holds.
   */
  lemma RefreshSucceedsIff(users: map<Id, User>, cookie: Option<Token>, verified: bool, now: Date)
    requires TokensOwned(users)
    ensures RefreshOutcome(users, cookie, verified, now).Ok? <==>
      && cookie.Some? && verified
      && cookie.value.subject in users
      && users[cookie.value.subject].refreshToken == cookie
  {
    if cookie.Some? && cookie.value.subject in users && users[cookie.value.subject].refreshToken == cookie {
      TokenHolderIs(users, cookie.value, cookie.value.subject);
    }
  }

  /** `new || old` on a string field. */
  function OrKeep(v: Option<string>, prior: string): string {
    if Supplied(v) then v.value else prior
  }

  /**
   * updateUser: name and email keep their old value unless the new one is
   * non-empty, skills unless a list was sent (an empty list is sent and
   * replaces); an email another user holds is refused by the unique index.
   */
  ghost function UpdateUserStep(users: map<Id, User>, caller: Id, name: Option<string>, email: Option<string>,
                                skills: Option<seq<string>>): (s: Step<Result<Account, AuthFailure>>)
    ensures caller !in users ==> s.reply == Err(UserNotFound)
    ensures caller in users ==>
      (s.reply.Ok? <==> !exists other :: other in users && other != caller
                                         && users[other].email == OrKeep(email, users[caller].email))
    ensures caller in users && s.reply.Err? ==> s.reply.error == EmailTaken
    ensures s.reply.Err? ==> s.users == users
    ensures s.reply.Ok? ==>
      && caller in users && caller in s.users
      && var u := s.users[caller];
      && s.users == users[caller := u]
      && u.name == OrKeep(name, users[caller].name)
      && u.email == OrKeep(email, users[caller].email)
      && u.skills == (if skills.Some? then skills.value else users[caller].skills)
      && u.password == users[caller].password && u.role == users[caller].role
      && u.refreshToken == users[caller].refreshToken
      && s.reply.value == Account(ProfileOf(caller, u), u.skills)
  {
    if caller !in users then Step(Err(UserNotFound), users)
    else
      var prior := users[caller];
      var u := prior.(name := OrKeep(name, prior.name), email := OrKeep(email, prior.email),
                    skills := if skills.Some? then skills.value else prior.skills);
      if exists other :: other in users && other != caller && users[other].email == u.email then
        Step(Err(EmailTaken), users)
      else Step(Ok(Account(ProfileOf(caller, u), u.skills)), users[caller := u])
  }

  /**
   * Login succeeds exactly when some user has that email and the password
   * matches; an unknown email and a wrong password get the same 401 reply.
   */
  lemma {:induction false} LoginSucceedsIff(users: map<Id, User>, email: string, password: string, now: Date)
    requires UniqueEmails(users)
    ensures LoginStep(users, email, password, now).reply.Ok? <==>
            exists id :: id in users && users[id].email == email && PasswordMatches(users[id].password, password)
    ensures LoginStep(users, email, password, now).reply.Err? ==>
            LoginStep(users, email, password, now) == Step(Err(InvalidCredentials), users)
  {
    if exists id :: id in users && users[id].email == email && PasswordMatches(users[id].password, password) {
      var id :| id in users && users[id].email == email && PasswordMatches(users[id].password, password);
      EmailHolderIs(users, email, id);
    }
  }

  /** After a logout with some cookie, no user holds that token any longer. */
  lemma {:induction false} LogoutReleasesToken(users: map<Id, User>, t: Token)
    requires TokensOwned(users)
    ensures TokensOwned(LogoutStep(users, Some(t)).users)
    ensures forall id :: id in LogoutStep(users, Some(t)).users ==>
                         LogoutStep(users, Some(t)).users[id].refreshToken != Some(t)
  {
    var after := LogoutStep(users, Some(t)).users;
    match TokenHolder(users, Some(t).value)
    case None =>
    case Some(holder) =>
      forall id | id in after
        ensures after[id].refreshToken != Some(t)
      {
        if id != holder {
          assert after[id] == users[id];
          assert users[holder].refreshToken.value.subject == holder;
        }
      }
  }

  /** Logging out twice with the same cookie is the same as logging out once; the second reply is 204. */
  lemma {:induction false} LogoutIdempotent(users: map<Id, User>, cookie: Option<Token>)
    requires TokensOwned(users)
    ensures var once := LogoutStep(users, cookie).users;
            LogoutStep(once, cookie) == Step(NoContent, once)
  {
    if cookie.Some? {
      LogoutReleasesToken(users, cookie.value);
    }
  }

  /** The refresh token a successful login sets in the cookie obtains access tokens for that user. */
  lemma {:induction false} LoginThenRefresh(users: map<Id, User>, email: string, password: string, now: Date,
                                            later: Date)
    requires TokensOwned(users)
    requires LoginStep(users, email, password, now).reply.Ok?
    ensures var s := LoginStep(users, email, password, now);
            RefreshOutcome(s.users, Some(s.reply.value.cookie), true, later)
            == Ok(Jwt(s.reply.value.profile.id, IssuedAt(later), Access))
  {
    var s := LoginStep(users, email, password, now);
    var id := s.reply.value.profile.id;
    assert TokensOwned(s.users) by {
      forall other | other in s.users && s.users[other].refreshToken.Some?
        ensures s.users[other].refreshToken.value.subject == other
      {
        if other != id {
          assert s.users[other] == users[other];
        }
      }
    }
    RefreshSucceedsIff(s.users, Some(s.reply.value.cookie), true, later);
  }

  /** A user who has just registered can log in with the same email and password. */
  lemma {:induction false} RegisterThenLogin(users: map<Id, User>, nextId: Id, name: string, email: string,
                                             password: string, now: Date, later: Date)
    requires Consistent(users, nextId)
    requires RegisterStep(users, nextId, name, email, password, now).reply.Ok?
    ensures var after := RegisterStep(users, nextId, name, email, password, now).users;
            && LoginStep(after, email, password, later).reply.Ok?
            && LoginStep(after, email, password, later).reply.value.profile.id == nextId
  {
    var after := RegisterStep(users, nextId, name, email, password, now).users;
    assert UniqueEmails(after) by {
      forall a, b | a in after && b in after && a != b
        ensures after[a].email != after[b].email
      {
        if a != nextId && b != nextId {
          assert after[a] == users[a] && after[b] == users[b];
        }
      }
    }
    EmailHolderIs(after, email, nextId);
  }

  /** After a password change the new password logs in and a different old one no longer does. */
  lemma {:induction false} ChangePasswordThenLogin(users: map<Id, User>, caller: Id, currentPassword: string,
                                                   newPassword: string, now: Date)
    requires UniqueEmails(users)
    requires ChangePasswordStep(users, caller, Some(currentPassword), Some(newPassword)).reply.Ok?
    ensures var after := ChangePasswordStep(users, caller, Some(currentPassword), Some(newPassword)).users;
            && LoginStep(after, users[caller].email, newPassword, now).reply.Ok?
            && (currentPassword != newPassword ==> LoginStep(after, users[caller].email, currentPassword, now).reply.Err?)
  {
    var after := ChangePasswordStep(users, caller, Some(currentPassword), Some(newPassword)).users;
    assert UniqueEmails(after) by {
      forall a, b | a in after && b in after && a != b
        ensures after[a].email != after[b].email
      {
        assert after[a].email == users[a].email && after[b].email == users[b].email;
      }
    }
    EmailHolderIs(after, users[caller].email, caller);
  }

  /** An update that keeps the caller's email clash-free keeps emails unique. */
  lemma {:induction false} UpdateKeepsUniqueEmails(users: map<Id, User>, caller: Id, name: Option<string>,
                                                   email: Option<string>, skills: Option<seq<string>>)
    requires UniqueEmails(users)
    requires UpdateUserStep(users, caller, name, email, skills).reply.Ok?
    ensures UniqueEmails(UpdateUserStep(users, caller, name, email, skills).users)
  {
    var after := UpdateUserStep(users, caller, name, email, skills).users;
    forall a, b | a in after && b in after && a != b
      ensures after[a].email != after[b].email
    {
      if a != caller && b != caller {
        assert after[a] == users[a] && after[b] == users[b];
      } else if a == caller {
        assert after[b] == users[b];
      } else {
        assert after[a] == users[a];
      }
    }
  }

  /**
   * After a successful profile update the account logs in under its merged
   * email exactly with the password it had before.
   */
  lemma {:induction false} UpdateThenLogin(users: map<Id, User>, caller: Id, name: Option<string>,
                                           email: Option<string>, skills: Option<seq<string>>,
                                           password: string, now: Date)
    requires UniqueEmails(users)
    requires UpdateUserStep(users, caller, name, email, skills).reply.Ok?
    ensures var after := UpdateUserStep(users, caller, name, email, skills).users;
            var login := LoginStep(after, OrKeep(email, users[caller].email), password, now);
            && (login.reply.Ok? <==> PasswordMatches(users[caller].password, password))
            && (login.reply.Ok? ==> login.reply.value.profile == ProfileOf(caller, after[caller]))
  {
    var after := UpdateUserStep(users, caller, name, email, skills).users;
    UpdateKeepsUniqueEmails(users, caller, name, email, skills);
    EmailHolderIs(after, OrKeep(email, users[caller].email), caller);
  }

  /** Sending the same profile update again changes nothing and returns the same account. */
  lemma {:induction false} UpdateUserIdempotent(users: map<Id, User>, caller: Id, name: Option<string>,
                                                email: Option<string>, skills: Option<seq<string>>)
    requires UpdateUserStep(users, caller, name, email, skills).reply.Ok?
    ensures var once := UpdateUserStep(users, caller, name, email, skills);
            UpdateUserStep(once.users, caller, name, email, skills) == once
  {
    var once := UpdateUserStep(users, caller, name, email, skills);
    var u := once.users[caller];
    assert u.(name := OrKeep(name, u.name), email := OrKeep(email, u.email),
              skills := if skills.Some? then skills.value else u.skills) == u;
    forall other | other in once.users && other != caller
      ensures once.users[other].email != u.email
    {
      assert once.users[other] == users[other];
    }
  }

  /** One request to the account handlers, with the inputs its outcome depends on. */
  datatype Request =
    | RegisterRequest(name: string, email: string, password: string, now: Date)
    | LoginRequest(email: string, password: string, now: Date)
    | LogoutRequest(cookie: Option<Token>)
    | RefreshRequest(cookie: Option<Token>, verified: bool, now: Date)
    | ChangePasswordRequest(caller: Id, currentPassword: Option<string>, newPassword: Option<string>)
    | UpdateUserRequest(caller: Id, newName: Option<string>, newEmail: Option<string>, newSkills: Option<seq<string>>)
    | GetMeRequest(caller: Id)

  /** The user table together with the id the next registration receives. */
  datatype Table = Table(users: map<Id, User>, nextId: Id)

  /** The table a request leaves behind; refresh and "me" only read it. */
  ghost function Serve(t: Table, r: Request): Table {
    match r
    case RegisterRequest(name, email, password, now) =>
      var s := RegisterStep(t.users, t.nextId, name, email, password, now);
      Table(s.users, if s.reply.Ok? then t.nextId + 1 else t.nextId)
    case LoginRequest(email, password, now) => t.(users := LoginStep(t.users, email, password, now).users)
    case LogoutRequest(cookie) => t.(users := LogoutStep(t.users, cookie).users)
    case RefreshRequest(_, _, _) => t
    case ChangePasswordRequest(caller, currentPassword, newPassword) =>
      t.(users := ChangePasswordStep(t.users, caller, currentPassword, newPassword).users)
    case UpdateUserRequest(caller, name, email, skills) =>
      t.(users := UpdateUserStep(t.users, caller, name, email, skills).users)
    case GetMeRequest(_) => t
  }

  /** The refresh token a request sets in the cookie: a successful register or login issues one. */
  ghost function Issued(t: Table, r: Request): (c: Option<Token>)
    ensures c.Some? ==> (r.RegisterRequest? || r.LoginRequest?)
    ensures c.Some? ==> c.value.issuedAt == IssuedAt(r.now) && c.value.kind == Refresh
  {
    match r
    case RegisterRequest(name, email, password, now) =>
      var s := RegisterStep(t.users, t.nextId, name, email, password, now);
      if s.reply.Ok? then Some(s.reply.value.cookie) else None
    case LoginRequest(email, password, now) =>
      var s := LoginStep(t.users, email, password, now);
      if s.reply.Ok? then Some(s.reply.value.cookie) else None
    case _ => None
  }

  /** The table after serving the requests in order. */
  ghost function Run(t: Table, rs: seq<Request>): Table
    decreases |rs|
  {
    if rs == [] then t else Run(Serve(t, rs[0]), rs[1..])
  }

  /** No user holds the token as their refresh token. */
  ghost predicate Released(users: map<Id, User>, tok: Token) {
    forall id :: id in users ==> users[id].refreshToken != Some(tok)
  }

  /** Serving the requests in order never issues the token again. */
  ghost predicate NeverReissued(t: Table, rs: seq<Request>, tok: Token)
    decreases |rs|
  {
    rs == [] || (Issued(t, rs[0]) != Some(tok) && NeverReissued(Serve(t, rs[0]), rs[1..], tok))
  }

  /** Replacing one user by a record with the same email and an owned token, or none, keeps the table consistent. */
  lemma ReplaceKeepsConsistent(users: map<Id, User>, nextId: Id, id: Id, u: User)
    requires Consistent(users, nextId) && id in users
    requires u.email == users[id].email
    requires u.refreshToken.Some? ==> u.refreshToken.value.subject == id
    ensures Consistent(users[id := u], nextId)
  {
    var after := users[id := u];
    forall a, b | a in after && b in after && a != b
      ensures after[a].email != after[b].email
    {
      assert after[a].email == users[a].email && after[b].email == users[b].email;
    }
  }

  /** A registration keeps the table consistent: the new id is fresh and its email was free. */
  lemma {:induction false} RegisterKeepsConsistent(users: map<Id, User>, nextId: Id, name: string, email: string,
                                                   password: string, now: Date)
    requires Consistent(users, nextId)
    requires RegisterStep(users, nextId, name, email, password, now).reply.Ok?
    ensures Consistent(RegisterStep(users, nextId, name, email, password, now).users, nextId + 1)
  {
    var after := RegisterStep(users, nextId, name, email, password, now).users;
    forall a, b | a in after && b in after && a != b
      ensures after[a].email != after[b].email
    {
      if a != nextId && b != nextId {
        assert after[a] == users[a] && after[b] == users[b];
      }
    }
    forall id | id in after && after[id].refreshToken.Some?
      ensures after[id].refreshToken.value.subject == id
    {
      if id != nextId {
        assert after[id] == users[id];
      }
    }
  }

  /** Every request keeps the table consistent, and the next id never decreases. */
  lemma {:induction false} ServeKeepsConsistent(t: Table, r: Request)
    requires Consistent(t.users, t.nextId)
    ensures Consistent(Serve(t, r).users, Serve(t, r).nextId)
    ensures Serve(t, r).nextId >= t.nextId
  {
    match r
    case RegisterRequest(name, email, password, now) =>
      if RegisterStep(t.users, t.nextId, name, email, password, now).reply.Ok? {
        RegisterKeepsConsistent(t.users, t.nextId, name, email, password, now);
      }
    case LoginRequest(email, password, now) =>
      var s := LoginStep(t.users, email, password, now);
      if s.reply.Ok? {
        var id := s.reply.value.profile.id;
        ReplaceKeepsConsistent(t.users, t.nextId, id, t.users[id].(refreshToken := Some(s.reply.value.cookie)));
      }
    case LogoutRequest(cookie) =>
      var s := LogoutStep(t.users, cookie);
      if s.reply == CookieCleared {
        var id :| id in t.users && t.users[id].refreshToken == cookie
                  && s.users == t.users[id := t.users[id].(refreshToken := None)];
        ReplaceKeepsConsistent(t.users, t.nextId, id, t.users[id].(refreshToken := None));
      }
    case RefreshRequest(_, _, _) =>
    case ChangePasswordRequest(caller, currentPassword, newPassword) =>
      if ChangePasswordStep(t.users, caller, currentPassword, newPassword).reply.Ok? {
        ReplaceKeepsConsistent(t.users, t.nextId, caller,
                               t.users[caller].(password := Hashed(newPassword.value)));
      }
    case UpdateUserRequest(caller, name, email, skills) =>
      var s := UpdateUserStep(t.users, caller, name, email, skills);
      if s.reply.Ok? {
        UpdateKeepsUniqueEmails(t.users, caller, name, email, skills);
        assert TokensOwned(s.users) by {
          forall id | id in s.users && s.users[id].refreshToken.Some?
            ensures s.users[id].refreshToken.value.subject == id
          {
            assert s.users[id].refreshToken == t.users[id].refreshToken;
          }
        }
      }
    case GetMeRequest(_) =>
  }

  /** Any sequence of requests keeps a consistent table consistent. */
  lemma {:induction false} RunKeepsConsistent(t: Table, rs: seq<Request>)
    requires Consistent(t.users, t.nextId)
    ensures Consistent(Run(t, rs).users, Run(t, rs).nextId)
    decreases |rs|
  {
    if rs != [] {
      ServeKeepsConsistent(t, rs[0]);
      RunKeepsConsistent(Serve(t, rs[0]), rs[1..]);
    }
  }

  /** A request that does not issue a released token leaves it released. */
  lemma {:induction false} ServeKeepsReleased(t: Table, r: Request, tok: Token)
    requires Released(t.users, tok)
    requires Issued(t, r) != Some(tok)
    ensures Released(Serve(t, r).users, tok)
  {
    var after := Serve(t, r).users;
    forall id | id in after
      ensures after[id].refreshToken != Some(tok)
    {
      match r
      case RegisterRequest(name, email, password, now) =>
        if id != t.nextId || RegisterStep(t.users, t.nextId, name, email, password, now).reply.Err? {
          assert after[id] == t.users[id];
        }
      case LoginRequest(email, password, now) =>
        var s := LoginStep(t.users, email, password, now);
        if s.reply.Err? || id != s.reply.value.profile.id {
          assert after[id] == t.users[id];
        }
      case LogoutRequest(cookie) =>
        var s := LogoutStep(t.users, cookie);
        if s.reply == CookieCleared {
          var holder :| holder in t.users && t.users[holder].refreshToken == cookie
                        && s.users == t.users[holder := t.users[holder].(refreshToken := None)];
          if id != holder {
            assert after[id] == t.users[id];
          }
        }
      case RefreshRequest(_, _, _) =>
      case ChangePasswordRequest(caller, currentPassword, newPassword) =>
        assert after[id].refreshToken == t.users[id].refreshToken;
      case UpdateUserRequest(caller, name, email, skills) =>
        assert after[id].refreshToken == t.users[id].refreshToken;
      case GetMeRequest(_) =>
    }
  }

  /** A released token stays released through any requests that do not issue it again. */
  lemma {:induction false} RunKeepsReleased(t: Table, rs: seq<Request>, tok: Token)
    requires Released(t.users, tok)
    requires NeverReissued(t, rs, tok)
    ensures Released(Run(t, rs).users, tok)
    decreases |rs|
  {
    if rs != [] {
      ServeKeepsReleased(t, rs[0], tok);
      RunKeepsReleased(Serve(t, rs[0]), rs[1..], tok);
    }
  }

  /**
   * A refresh token cleared by logout can no longer obtain an access token,
   * after any later requests, unless a register or login issues the very
   * same token again.
   */
  lemma {:induction false} LoggedOutTokenCannotRefresh(t: Table, tok: Token, rs: seq<Request>, verified: bool,
                                                       now: Date)
    requires TokensOwned(t.users)
    requires NeverReissued(t.(users := LogoutStep(t.users, Some(tok)).users), rs, tok)
    ensures RefreshOutcome(Run(t.(users := LogoutStep(t.users, Some(tok)).users), rs).users, Some(tok), verified, now)
            == Err(Forbidden)
  {
    LogoutReleasesToken(t.users, tok);
    RunKeepsReleased(t.(users := LogoutStep(t.users, Some(tok)).users), rs, tok);
  }

  /** A token is never issued again by requests whose registers and logins all fall in other seconds. */
  lemma {:induction false} OtherSecondsNeverReissue(t: Table, rs: seq<Request>, tok: Token)
    requires forall i :: 0 <= i < |rs| && (rs[i].RegisterRequest? || rs[i].LoginRequest?)
                         ==> IssuedAt(rs[i].now) != tok.issuedAt
    ensures NeverReissued(t, rs, tok)
    decreases |rs|
  {
    if rs != [] {
      assert forall i :: 0 <= i < |rs[1..]| ==> rs[1..][i] == rs[i + 1];
      OtherSecondsNeverReissue(Serve(t, rs[0]), rs[1..], tok);
    }
  }

  /**
   * The exception is real: logging in again within the same second signs
   * the same refresh token, so the cookie cleared by logout obtains access
   * tokens again.
   */
  lemma {:induction false} SameSecondLoginRevives(users: map<Id, User>, email: string, password: string,
                                                  now: Date, later: Date, refreshAt: Date)
    requires UniqueEmails(users) && TokensOwned(users)
    requires LoginStep(users, email, password, now).reply.Ok?
    requires IssuedAt(later) == IssuedAt(now)
    ensures var first := LoginStep(users, email, password, now);
            var cookie := first.reply.value.cookie;
            var again := LoginStep(LogoutStep(first.users, Some(cookie)).users, email, password, later);
            && again.reply.Ok? && again.reply.value.cookie == cookie
            && RefreshOutcome(again.users, Some(cookie), true, refreshAt).Ok?
  {
    var first := LoginStep(users, email, password, now);
    var id := first.reply.value.profile.id;
    var cookie := first.reply.value.cookie;
    var out := LogoutStep(first.users, Some(cookie)).users;
    assert TokensOwned(first.users) by {
      forall other | other in first.users && first.users[other].refreshToken.Some?
        ensures first.users[other].refreshToken.value.subject == other
      {
        if other != id {
          assert first.users[other] == users[other];
        }
      }
    }
    LogoutReleasesToken(first.users, cookie);
    assert id in out && out[id].email == email && out[id].password == users[id].password;
    assert UniqueEmails(out) by {
      forall a, b | a in out && b in out && a != b
        ensures out[a].email != out[b].email
      {
        assert out[a].email == users[a].email && out[b].email == users[b].email;
      }
    }
    EmailHolderIs(out, email, id);
    LoginThenRefresh(out, email, password, later, refreshAt);
  }

  /** The user table of the SmartTrack API. */
  class UserStore {
    var users: map<Id, User>
    /** The id the next registered user receives. */
    var nextId: Id

    ghost predicate Valid()
      reads this
    {
      Consistent(users, nextId)
    }

    constructor ()
      ensures Valid() && users == map[]
    {
      users := map[];
      nextId := 0;
    }

    method Register(name: string, email: string, password: string, now: Date) returns (r: Result<SignedIn, AuthFailure>)
      requires Valid()
      modifies this
      ensures Valid()
      ensures Step(r, users) == RegisterStep(old(users), old(nextId), name, email, password, now)
    {
      if exists id :: id in users && users[id].email == email {
        return Err(UserExists);
      }
      var id := nextId;
      var user := User(name, email, Hashed(password), DefaultRole, [], None);
      var access := Jwt(id, IssuedAt(now), Access);
      var refresh := Jwt(id, IssuedAt(now), Refresh);
      user := user.(refreshToken := Some(refresh));
      users := users[id := user];
      nextId := nextId + 1;
      r := Ok(SignedIn(ProfileOf(id, user), access, refresh));
    }

    method Login(email: string, password: string, now: Date) returns (r: Result<SignedIn, AuthFailure>)
      requires Valid()
      modifies this
      ensures Valid() && nextId == old(nextId)
      ensures Step(r, users) == LoginStep(old(users), email, password, now)
    {
      if !exists id :: id in users && users[id].email == email {
        return Err(InvalidCredentials);
      }
      var id :| id in users && users[id].email == email;
      EmailHolderIs(users, email, id);
      var user := users[id];
      if !PasswordMatches(user.password, password) {
        return Err(InvalidCredentials);
      }
      var access := Jwt(id, IssuedAt(now), Access);
      var refresh := Jwt(id, IssuedAt(now), Refresh);
      user := user.(refreshToken := Some(refresh));
      users := users[id := user];
      r := Ok(SignedIn(ProfileOf(id, user), access, refresh));
    }

    method Logout(cookie: Option<Token>) returns (r: LogoutReply)
      requires Valid()
      modifies this
      ensures Valid() && nextId == old(nextId)
      ensures Step(r, users) == LogoutStep(old(users), cookie)
    {
      if cookie.None? {
        return NoContent;
      }
      var refreshToken := cookie.value;
      if !exists id :: id in users && users[id].refreshToken == Some(refreshToken) {
        return NoContent;
      }
      var id :| id in users && users[id].refreshToken == Some(refreshToken);
      TokenHolderIs(users, refreshToken, id);
      var user := users[id];
      user := user.(refreshToken := None);
      users := users[id := user];
      r := CookieCleared;
    }

    method RefreshAccessToken(cookie: Option<Token>, verified: bool, now: Date) returns (r: Result<Token, AuthFailure>)
      requires Valid()
      ensures r == RefreshOutcome(users, cookie, verified, now)
    {
      if cookie.None? {
        return Err(Unauthorized);
      }
      var refreshToken := cookie.value;
      if !exists id :: id in users && users[id].refreshToken == Some(refreshToken) {
        return Err(Forbidden);
      }
      var id :| id in users && users[id].refreshToken == Some(refreshToken);
      TokenHolderIs(users, refreshToken, id);
      if !verified || refreshToken.subject != id {
        return Err(Forbidden);
      }
      r := Ok(Jwt(id, IssuedAt(now), Access));
    }

    method ChangePassword(caller: Id, currentPassword: Option<string>, newPassword: Option<string>) returns (r: Result<(), AuthFailure>)
      requires Valid()
      modifies this
      ensures Valid() && nextId == old(nextId)
      ensures Step(r, users) == ChangePasswordStep(old(users), caller, currentPassword, newPassword)
    {
      if !Supplied(currentPassword) || !Supplied(newPassword) {
        return Err(MissingPasswords);
      }
      if Text.Utf16Length(newPassword.value) < MinPasswordLength {
        return Err(PasswordTooShort);
      }
      if caller !in users {
        return Err(UserNotFound);
      }
      var user := users[caller];
      if !PasswordMatches(user.password, currentPassword.value) {
        return Err(WrongCurrentPassword);
      }
      user := user.(password := Hashed(newPassword.value));
      users := users[caller := user];
      r := Ok(());
    }

    method UpdateUser(caller: Id, name: Option<string>, email: Option<string>, skills: Option<seq<string>>)
      returns (r: Result<Account, AuthFailure>)
      requires Valid()
      modifies this
      ensures Valid() && nextId == old(nextId)
      ensures Step(r, users) == UpdateUserStep(old(users), caller, name, email, skills)
    {
      if caller !in users {
        return Err(UserNotFound);
      }
      var user := users[caller];
      user := user.(name := OrKeep(name, user.name));
      user := user.(email := OrKeep(email, user.email));
      user := user.(skills := if skills.Some? then skills.value else user.skills);
      if exists other :: other in users && other != caller && users[other].email == user.email {
        return Err(EmailTaken);
      }
      users := users[caller := user];
      r := Ok(Account(ProfileOf(caller, user), user.skills));
    }

    /** getMe: the caller's profile and skills, or 404. */
    method GetMe(caller: Id) returns (r: Result<Account, AuthFailure>)
      ensures caller !in users <==> r == Err(UserNotFound)
      ensures caller in users ==> r == Ok(Account(ProfileOf(caller, users[caller]), users[caller].skills))
    {
      if caller !in users {
        return Err(UserNotFound);
      }
      var user := users[caller];
      r := Ok(Account(ProfileOf(caller, user), user.skills));
    }
  }
}
