/** AuthService: login, registration, password change and password reset as transitions of
    the user table (and, for registration, the photographer table). The identity library is
    a parameter: an uninterpreted password check, the outcome of account creation and of a
    password change, and the password hash. */
module Auth {
  import opened Base
  import opened Text
  import opened Entities
  import opened Store
  import opened Access
  import opened Jwt

  const InvalidCredentials := "Invalid email or password"
  const DuplicateEmail := "User with this email already exists"
  const UserNotFound := "User not found"
  const ChangeFailedPrefix := "Failed to change password: "
  const ErrorSeparator := ", "
  const DefaultSpecialization := "General Photography"
  const DefaultHourlyRate: real := 100.0

  /** `IdentityResult`: success, or the descriptions of what went wrong. */
  datatype IdentityResult = IdentityResult(Succeeded: bool, Errors: seq<string>)

  /** What the service asks of the identity library. */
  datatype IdentityPolicy = IdentityPolicy(
    checkPassword: (ApplicationUser, string) -> bool,
    create: (ApplicationUser, string) -> IdentityResult,
    changePassword: (ApplicationUser, string, string) -> IdentityResult,
    hash: string -> string)

  /** The role a registrant asks for (`UserRole`); registration ignores it. */
  datatype UserRole = UserAdmin | UserPhotographer | UserClient

  datatype RegisterRequest = RegisterRequest(Email: string, Password: string, FirstName: string, LastName: string, Role: UserRole)

  datatype UserDto = UserDto(Id: string, Email: Option<string>, FirstName: Option<string>, LastName: Option<string>, Role: string)

  /** The reply's token: an issued one, or the empty string of a password reset. */
  datatype IssuedToken = Issued(Token: JwtToken) | NoToken

  datatype AuthResponse = AuthResponse(User: UserDto, Token: IssuedToken)

  /** The exceptions the service throws: its own messages, or what GenerateToken threw. */
  datatype AuthError = Rejected(Message: string) | TokenFailed(Error: TokenError)

  /** `FindByEmailAsync`: e-mails compare by their normalised (upper-cased) form. */
  function EmailMatches(email: string): ApplicationUser -> bool {
    (u: ApplicationUser) => u.Email.Some? && ToUpper(u.Email.value) == ToUpper(email)
  }

  function UserByEmail(users: seq<ApplicationUser>, email: string): (r: Option<nat>)
    ensures r.Some? ==> r.value < |users| && EmailMatches(email)(users[r.value])
    ensures r.None? <==> forall i :: 0 <= i < |users| ==> !EmailMatches(email)(users[i])
  {
    FirstIndex(users, EmailMatches(email))
  }

  function IdMatches(id: string): ApplicationUser -> bool {
    (u: ApplicationUser) => u.Id == id
  }

  /** `FindByIdAsync` */
  function UserById(users: seq<ApplicationUser>, id: string): (r: Option<nat>)
    ensures r.Some? ==> r.value < |users| && users[r.value].Id == id
    ensures r.None? <==> forall i :: 0 <= i < |users| ==> users[i].Id != id
  {
    FirstIndex(users, IdMatches(id))
  }

  /** `roles.FirstOrDefault() ?? "Photographer"` */
  function ReportedRole(roles: seq<string>): string {
    if |roles| > 0 then roles[0] else PhotographerRole
  }

  function View(u: ApplicationUser, role: string): UserDto {
    UserDto(u.Id, u.Email, u.FirstName, u.LastName, role)
  }

  /** The account Register asks the identity library to create. */
  function NewAccount(request: RegisterRequest, id: string, now: Time, passwordHash: string): ApplicationUser {
    ApplicationUser(id, request.Email, Some(request.Email), Some(request.FirstName), Some(request.LastName),
                    now, None, passwordHash, [])
  }

  /** The photographer profile every registration provisions. */
  function DefaultProfile(id: int, userId: string, request: RegisterRequest, now: Time): (p: Photographer)
    ensures p.UserId == Some(userId) && p.Specialization == DefaultSpecialization
    ensures p.HourlyRate == DefaultHourlyRate && p.Portfolio == Some("")
  {
    Photographer(id, Some(userId), request.FirstName, request.LastName, request.Email, None,
                 DefaultSpecialization, DefaultHourlyRate, Some(""), None, None, now)
  }

  /** Login's two refusals: no account for the e-mail, or a password the check rejects. */
  predicate LoginRefused(identity: IdentityPolicy, users: seq<ApplicationUser>, email: string, password: string) {
    match UserByEmail(users, email)
    case None => true
    case Some(i) => !identity.checkPassword(users[i], password)
  }

  /** A reply carrying a token, or the token failure. */
  function Reply(token: Result<JwtToken, TokenError>, user: UserDto): (r: Result<AuthResponse, AuthError>)
    ensures r.Success? <==> token.Success?
    ensures r.Success? ==> r.value == AuthResponse(user, Issued(token.value))
    ensures r.Failure? ==> r.error == TokenFailed(token.error)
  {
    match token
    case Success(t) => Success(AuthResponse(user, Issued(t)))
    case Failure(e) => Failure(TokenFailed(e))
  }

  class AuthService {
    const db: Store
    const identity: IdentityPolicy
    const config: Config

    constructor (db: Store, identity: IdentityPolicy, config: Config)
      ensures this.db == db && this.identity == identity && this.config == config
    {
      this.db := db;
      this.identity := identity;
      this.config := config;
    }

    /** LoginAsync: the token carries the stored roles; the login time is recorded only after
        the token was produced. */
    method Login(email: string, password: string, now: Time, jti: string) returns (r: Result<AuthResponse, AuthError>)
      requires db.Valid()
      modifies db`users
      ensures db.Valid()
      ensures LoginRefused(identity, old(db.users), email, password) ==>
        r == Failure(Rejected(InvalidCredentials)) && db.users == old(db.users)
      ensures !LoginRefused(identity, old(db.users), email, password) ==>
        var i := UserByEmail(old(db.users), email).value;
        var u := old(db.users)[i];
        var token := GenerateToken(config, Some(u), Some(u.Roles), now, jti);
        && r == Reply(token, View(u, ReportedRole(u.Roles)))
        && (token.Failure? ==> db.users == old(db.users))
        && (token.Success? ==> db.users == old(db.users)[i := u.(LastLoginAt := Some(now))])
    {
      var found := UserByEmail(db.users, email);
      if found.None? {
        return Failure(Rejected(InvalidCredentials));
      }
      var i := found.value;
      var u := db.users[i];
      if !identity.checkPassword(u, password) {
        return Failure(Rejected(InvalidCredentials));
      }
      var token := GenerateToken(config, Some(u), Some(u.Roles), now, jti);
      if token.Failure? {
        return Failure(TokenFailed(token.error));
      }
      DistinctUserIdsReplace(db.users, i, u.(LastLoginAt := Some(now)));
      db.users := db.users[i := u.(LastLoginAt := Some(now))];
      r := Success(AuthResponse(View(u, ReportedRole(u.Roles)), Issued(token.value)));
    }

    /** RegisterAsync: every registrant becomes a Photographer with a default profile,
        whatever role was asked for. A token failure comes after both rows were saved. */
    method Register(request: RegisterRequest, newUserId: string, now: Time, jti: string) returns (r: Result<AuthResponse, AuthError>)
      requires db.Valid()
      requires forall k :: 0 <= k < |db.users| ==> db.users[k].Id != newUserId
      modifies db`users, db`photographers, db`nextId
      ensures db.Valid()
      ensures UserByEmail(old(db.users), request.Email).Some? ==>
        && r == Failure(Rejected(DuplicateEmail))
        && db.users == old(db.users) && db.photographers == old(db.photographers) && db.nextId == old(db.nextId)
      ensures UserByEmail(old(db.users), request.Email).None? ==>
        var account := NewAccount(request, newUserId, now, identity.hash(request.Password));
        var created := identity.create(account, request.Password);
        && (!created.Succeeded ==>
              && r == Failure(Rejected(Join(created.Errors, ErrorSeparator)))
              && db.users == old(db.users) && db.photographers == old(db.photographers) && db.nextId == old(db.nextId))
        && (created.Succeeded ==>
              var user := account.(Roles := [PhotographerRole]);
              && db.users == old(db.users) + [user]
              && db.photographers == old(db.photographers) + [DefaultProfile(old(db.nextId), newUserId, request, now)]
              && db.nextId == old(db.nextId) + 1
              && r == Reply(GenerateToken(config, Some(user), Some([PhotographerRole]), now, jti), View(user, PhotographerRole)))
    {
      if UserByEmail(db.users, request.Email).Some? {
        return Failure(Rejected(DuplicateEmail));
      }

      var account := NewAccount(request, newUserId, now, identity.hash(request.Password));
      var created := identity.create(account, request.Password);
      if !created.Succeeded {
        return Failure(Rejected(Join(created.Errors, ErrorSeparator)));
      }
      var user := account.(Roles := [PhotographerRole]);
      SaveRegistration(user, request, now);
      var token := GenerateToken(config, Some(user), Some([PhotographerRole]), now, jti);
      r := Reply(token, View(user, PhotographerRole));
    }

    /** Saves a new account together with its default photographer profile. */
    method SaveRegistration(user: ApplicationUser, request: RegisterRequest, now: Time)
      requires db.Valid()
      requires forall k :: 0 <= k < |db.users| ==> db.users[k].Id != user.Id
      modifies db`users, db`photographers, db`nextId
      ensures db.Valid()
      ensures db.users == old(db.users) + [user]
      ensures db.photographers == old(db.photographers) + [DefaultProfile(old(db.nextId), user.Id, request, now)]
      ensures db.nextId == old(db.nextId) + 1
    {
      var id := db.NewId();
      var profile := DefaultProfile(id, user.Id, request, now);
      DistinctUserIdsAppend(db.users, user);
      KeyedAppend(db.photographers, PhotographerKey, id, profile);
      db.users, db.photographers := db.users + [user], db.photographers + [profile];
    }

    /** ChangePasswordAsync, as declared: the numeric id is rendered in decimal and looked up
        among the (string) user ids. */
    method ChangePassword(userId: int, currentPassword: string, newPassword: string, now: Time, jti: string)
      returns (r: Result<AuthResponse, AuthError>)
      requires db.Valid()
      modifies db`users
      ensures db.Valid()
      ensures r == ChangePasswordOutcome(identity, config, old(db.users), IntToString(userId), currentPassword, newPassword, now, jti).0
      ensures db.users == ChangePasswordOutcome(identity, config, old(db.users), IntToString(userId), currentPassword, newPassword, now, jti).1
    {
      r := ChangePasswordFor(IntToString(userId), currentPassword, newPassword, now, jti);
    }

    /** The password change for the account with this identity id. */
    method ChangePasswordFor(userId: string, currentPassword: string, newPassword: string, now: Time, jti: string)
      returns (r: Result<AuthResponse, AuthError>)
      requires db.Valid()
      modifies db`users
      ensures db.Valid()
      ensures r == ChangePasswordOutcome(identity, config, old(db.users), userId, currentPassword, newPassword, now, jti).0
      ensures db.users == ChangePasswordOutcome(identity, config, old(db.users), userId, currentPassword, newPassword, now, jti).1
    {
      var found := UserById(db.users, userId);
      if found.None? {
        return Failure(Rejected(UserNotFound));
      }
      var i := found.value;
      var u := db.users[i];
      var changed := identity.changePassword(u, currentPassword, newPassword);
      if !changed.Succeeded {
        return Failure(Rejected(ChangeFailedPrefix + Join(changed.Errors, ErrorSeparator)));
      }
      var updated := u.(PasswordHash := identity.hash(newPassword));
      DistinctUserIdsReplace(db.users, i, updated);
      db.users := db.users[i := updated];
      r := Reply(GenerateToken(config, Some(updated), Some(updated.Roles), now, jti), View(updated, ReportedRole(updated.Roles)));
    }

    /** ResetPasswordAsync: reports the account and changes nothing. */
    method ResetPassword(email: string) returns (r: Result<AuthResponse, AuthError>)
      ensures UserByEmail(db.users, email).None? <==> r == Failure(Rejected(UserNotFound))
      ensures r.Failure? ==> r == Failure(Rejected(UserNotFound))
      ensures UserByEmail(db.users, email).Some? ==>
        var u := db.users[UserByEmail(db.users, email).value];
        r == Success(AuthResponse(View(u, ReportedRole(u.Roles)), NoToken))
    {
      var found := UserByEmail(db.users, email);
      if found.None? {
        return Failure(Rejected(UserNotFound));
      }
      var u := db.users[found.value];
      r := Success(AuthResponse(View(u, ReportedRole(u.Roles)), NoToken));
    }
  }

  /** The password change as a transition of the user table: the reply and the table after. */
  function ChangePasswordOutcome(identity: IdentityPolicy, config: Config, users: seq<ApplicationUser>, userId: string,
                                 currentPassword: string, newPassword: string, now: Time, jti: string)
    : (Result<AuthResponse, AuthError>, seq<ApplicationUser>)
  {
    match UserById(users, userId)
    case None => (Failure(Rejected(UserNotFound)), users)
    case Some(i) =>
      var changed := identity.changePassword(users[i], currentPassword, newPassword);
      if !changed.Succeeded then
        (Failure(Rejected(ChangeFailedPrefix + Join(changed.Errors, ErrorSeparator))), users)
      else
        var updated := users[i].(PasswordHash := identity.hash(newPassword));
        (Reply(GenerateToken(config, Some(updated), Some(updated.Roles), now, jti), View(updated, ReportedRole(updated.Roles))),
         users[i := updated])
  }

  /** After a registration, a login with the registered e-mail (in any letter case) finds
      the new account. */
  lemma RegisteredAccountIsFound(users: seq<ApplicationUser>, account: ApplicationUser, email: string, typed: string)
    requires UserByEmail(users, email).None?
    requires account.Email == Some(email) && ToUpper(typed) == ToUpper(email)
    ensures UserByEmail(users + [account], typed) == Some(|users|)
  {
    var all := users + [account];
    assert EmailMatches(typed)(all[|users|]);
    forall i | 0 <= i < |users|
      ensures !EmailMatches(typed)(all[i])
    {
      assert all[i] == users[i];
      assert !EmailMatches(email)(users[i]);
    }
  }

  /** The token a registration issues identifies a photographer whose sessions are scoped
      to the profile created with the account, as long as no earlier profile was linked to
      the new user id. */
  lemma RegistrationTokenScopesToNewProfile(config: Config, request: RegisterRequest, newUserId: string, now: Time, jti: string,
                                            passwordHash: string, photographers: seq<Photographer>, clients: seq<Client>, id: int)
    requires SecretKey in config && newUserId != ""
    requires forall i :: 0 <= i < |photographers| ==> photographers[i].UserId != Some(newUserId)
    ensures var user := NewAccount(request, newUserId, now, passwordHash).(Roles := [PhotographerRole]);
      var token := GenerateToken(config, Some(user), Some([PhotographerRole]), now, jti);
      var profile := DefaultProfile(id, newUserId, request, now);
      && token.Success?
      && CallerScope(CallerOf(token.value), photographers + [profile], clients) == Success(OfPhotographer(id))
  {
    var user := NewAccount(request, newUserId, now, passwordHash).(Roles := [PhotographerRole]);
    TokenIdentifiesUser(config, user, Some([PhotographerRole]), now, jti);
    var all := photographers + [DefaultProfile(id, newUserId, request, now)];
    assert all[|photographers|].UserId == Some(newUserId);
    var k := PhotographerOf(all, newUserId);
    assert FirstIndex(all, LinkedPhotographer(newUserId)) == Some(|photographers|) by {
      forall i | 0 <= i < |photographers|
        ensures !LinkedPhotographer(newUserId)(all[i])
      {
        assert all[i] == photographers[i];
      }
    }
  }

  /** ChangePassword as declared reaches only an account whose id is the decimal rendering
      of the number it is given. */
  lemma NumericLookupNeedsDecimalId(users: seq<ApplicationUser>, n: int)
    requires UserById(users, IntToString(n)).Some?
    ensures ParseInt(users[UserById(users, IntToString(n)).value].Id) == Some(n)
  {
    IntToStringRoundTrip(n);
  }

  /** A user id in the identity library's default GUID form. */
  const GuidUserId := "0f8fad5b-d9cb-469f-a165-70867728950e"

  /** No number renders as a GUID-form id, so ChangePassword as declared answers "User not
      found" for such an account whatever it is given, while the lookup by the id itself
      finds it. */
  lemma GuidAccountUnreachableByNumber(identity: IdentityPolicy, config: Config, u: ApplicationUser, n: int,
                                       currentPassword: string, newPassword: string, now: Time, jti: string)
    requires u.Id == GuidUserId
    ensures ChangePasswordOutcome(identity, config, [u], IntToString(n), currentPassword, newPassword, now, jti)
            == (Failure(Rejected(UserNotFound)), [u])
    ensures ChangePasswordOutcome(identity, config, [u], u.Id, currentPassword, newPassword, now, jti).0
            != Failure(Rejected(UserNotFound))
  {
    var rendered := IntToString(n);
    assert !IsDigit(GuidUserId[8]);
    if n >= 0 {
      assert |rendered| <= 8 || IsDigit(rendered[8]);
    } else {
      assert |rendered| <= 8 || IsDigit(rendered[1..][7]);
    }
    assert rendered != u.Id;
    assert UserById([u], rendered).None?;
    assert UserById([u], u.Id) == Some(0);
    var changed := identity.changePassword(u, currentPassword, newPassword);
    assert (ChangeFailedPrefix + Join(changed.Errors, ErrorSeparator))[0] != UserNotFound[0];
  }
}
