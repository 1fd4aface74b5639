/** JwtService: the bearer token issued at login, registration and password change, as the
    claims record before encoding (JSON Web Token, RFC 7519). The HMAC-SHA256 signature
    (section 3.2 of RFC 7518) and the compact serialisation are not modelled; the token keeps
    the configured secret it would be signed with. `CallerOf` is the partner: what a handler
    reads back from a validated token. */
module Jwt {
  import opened Base
  import opened Entities
  import opened Access

  /** `JwtRegisteredClaimNames.Sub/Email/Jti`: subject (section 4.1.2 of RFC 7519), e-mail,
      and token id (section 4.1.7 of RFC 7519). */
  const SubClaim := "sub"
  const EmailClaim := "email"
  const JtiClaim := "jti"
  /** `ClaimTypes.Role` */
  const RoleClaimType := "http://schemas.microsoft.com/ws/2008/06/identity/claims/role"

  const SecretKey := "JWT:Secret"
  const IssuerKey := "JWT:ValidIssuer"
  const AudienceKey := "JWT:ValidAudience"
  const SecretMissing := "JWT:Secret not configured"

  /** Lifetime of an issued token; the expiry is the `exp` claim (section 4.1.4 of RFC 7519). */
  const TokenLifetimeHours: nat := 24

  datatype Claim = Claim(Type: string, Value: string)

  datatype JwtToken = JwtToken(
    Issuer: Option<string>,
    Audience: Option<string>,
    Claims: seq<Claim>,
    Expires: Time,
    SigningKey: string)

  /** The exceptions GenerateToken throws, with the parameter name or the message. */
  datatype TokenError = ArgumentNull(ParamName: string) | InvalidOperation(Message: string)

  /** `IConfiguration`: a missing key reads as null. */
  type Config = map<string, string>

  function Setting(config: Config, key: string): (r: Option<string>)
    ensures r.Some? <==> key in config
    ensures r.Some? ==> r.value == config[key]
  {
    if key in config then Some(config[key]) else None
  }

  /** One role claim per role, in order. */
  function RoleClaims(roles: seq<string>): (r: seq<Claim>)
    ensures |r| == |roles|
    ensures forall i :: 0 <= i < |roles| ==> r[i] == Claim(RoleClaimType, roles[i])
  {
    if |roles| == 0 then [] else [Claim(RoleClaimType, roles[0])] + RoleClaims(roles[1..])
  }

  /** GenerateToken(user), with the user's transient role list passed beside it (null when
      the caller did not load it), the local clock reading and the fresh GUID text. */
  function GenerateToken(config: Config, user: Option<ApplicationUser>, userRoles: Option<seq<string>>,
                         now: Time, jti: string): (r: Result<JwtToken, TokenError>)
    ensures user.None? ==> r == Failure(ArgumentNull("user"))
    ensures user.Some? && SecretKey !in config ==> r == Failure(InvalidOperation(SecretMissing))
    ensures r.Success? <==> user.Some? && SecretKey in config
    ensures r.Success? ==>
      && |r.value.Claims| == 3 + |userRoles.GetOr([])|
      && r.value.Claims[..3] == [Claim(SubClaim, user.value.Id), Claim(EmailClaim, user.value.Email.GetOr("")), Claim(JtiClaim, jti)]
      && (forall i :: 0 <= i < |userRoles.GetOr([])| ==> r.value.Claims[3 + i] == Claim(RoleClaimType, userRoles.GetOr([])[i]))
      && r.value.Issuer == Setting(config, IssuerKey)
      && r.value.Audience == Setting(config, AudienceKey)
      && r.value.Expires == AddHours(now, TokenLifetimeHours)
      && r.value.SigningKey == config[SecretKey]
  {
    if user.None? then Failure(ArgumentNull("user"))
    else if SecretKey !in config then Failure(InvalidOperation(SecretMissing))
    else
      var u := user.value;
      var claims := [Claim(SubClaim, u.Id), Claim(EmailClaim, u.Email.GetOr("")), Claim(JtiClaim, jti)];
      var roles := if userRoles.Some? then RoleClaims(userRoles.value) else [];
      Success(JwtToken(Setting(config, IssuerKey), Setting(config, AudienceKey), claims + roles,
                       AddHours(now, TokenLifetimeHours), config[SecretKey]))
  }

  /** The values of the role claims, in order: what `User.IsInRole` consults. */
  function RoleValues(claims: seq<Claim>): (r: seq<string>)
    ensures |r| <= |claims|
  {
    if |claims| == 0 then []
    else if claims[0].Type == RoleClaimType then [claims[0].Value] + RoleValues(claims[1..])
    else RoleValues(claims[1..])
  }

  function IsSubject(c: Claim): bool {
    c.Type == SubClaim
  }

  /** The caller a handler sees for a validated token: the subject, which the bearer handler
      maps to the NameIdentifier claim, and the role claims. */
  function CallerOf(token: JwtToken): Caller {
    match FirstWhere(token.Claims, IsSubject)
    case None => Caller(None, RoleValues(token.Claims))
    case Some(c) => Caller(Some(c.Value), RoleValues(token.Claims))
  }

  lemma {:induction false} RoleValuesOfRoleClaims(roles: seq<string>)
    ensures RoleValues(RoleClaims(roles)) == roles
  {
    if |roles| > 0 {
      RoleValuesOfRoleClaims(roles[1..]);
    }
  }

  /** Claims that are not role claims contribute nothing to the role list. */
  lemma {:induction false} RoleValuesSkipsOthers(prefix: seq<Claim>, rest: seq<Claim>)
    requires forall i :: 0 <= i < |prefix| ==> prefix[i].Type != RoleClaimType
    ensures RoleValues(prefix + rest) == RoleValues(rest)
  {
    if |prefix| > 0 {
      var all := prefix + rest;
      assert all[0] == prefix[0] && all[1..] == prefix[1..] + rest;
      assert RoleValues(all) == RoleValues(all[1..]);
      RoleValuesSkipsOthers(prefix[1..], rest);
    } else {
      assert prefix + rest == rest;
    }
  }

  /** A token identifies exactly the user it was issued for, with exactly the roles it was
      issued with (none when the role list was not loaded). */
  lemma TokenIdentifiesUser(config: Config, user: ApplicationUser, userRoles: Option<seq<string>>, now: Time, jti: string)
    requires SecretKey in config
    ensures GenerateToken(config, Some(user), userRoles, now, jti).Success?
    ensures CallerOf(GenerateToken(config, Some(user), userRoles, now, jti).value) == Caller(Some(user.Id), userRoles.GetOr([]))
  {
    var t := GenerateToken(config, Some(user), userRoles, now, jti).value;
    var prefix := [Claim(SubClaim, user.Id), Claim(EmailClaim, user.Email.GetOr("")), Claim(JtiClaim, jti)];
    var roles := if userRoles.Some? then RoleClaims(userRoles.value) else [];
    assert t.Claims == prefix + roles;
    RoleValuesSkipsOthers(prefix, roles);
    if userRoles.Some? {
      RoleValuesOfRoleClaims(userRoles.value);
    }
    assert IsSubject(t.Claims[0]);
  }
}
