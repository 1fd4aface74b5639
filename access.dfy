/** The ownership decisions the controllers take before touching a record: one function per
    distinct sequence of checks, each returning Pass or the rejection the handler sends. The
    order of the checks (BadRequest, Unauthorized, NotFound, Forbid) differs per endpoint and
    each contract states it. `Guard` is the one-policy reading of these checks, and the lemmas
    at the end say where each endpoint agrees with it and where it does not. */
module Access {
  import opened Base
  import opened Entities
  import opened Store

  /** What a handler learns from the validated bearer token: the NameIdentifier claim (absent
      or possibly empty) and the role claims. */
  datatype Caller = Caller(UserId: Option<string>, Roles: seq<string>)

  /** `User.IsInRole(role)` */
  predicate IsInRole(c: Caller, role: string) {
    role in c.Roles
  }

  /** `string.IsNullOrEmpty(userId)` */
  predicate Anonymous(c: Caller) {
    c.UserId.None? || c.UserId.value == ""
  }

  /** The rejections a handler returns; a bare `NotFound()` carries the empty message.
      ServerError is an exception no handler catches: the request ends in a 500 and nothing
      the failed save would have written is stored. */
  datatype Failure = BadRequest | Unauthorized | Forbidden | NotFound(Message: string) | ServerError

  datatype Outcome = Pass | Deny(Failure: Failure)

  const NoPhotographerProfile := "Photographer profile not found"
  const NoClientProfile := "Client profile not found"

  function LinkedPhotographer(userId: string): Photographer -> bool {
    (p: Photographer) => p.UserId == Some(userId)
  }

  function LinkedClient(userId: string): Client -> bool {
    (c: Client) => c.UserId == Some(userId)
  }

  /** `Photographers.FirstOrDefaultAsync(p => p.UserId == userId)` */
  function PhotographerOf(photographers: seq<Photographer>, userId: string): (r: Option<Photographer>)
    ensures r.Some? ==> r.value in photographers && r.value.UserId == Some(userId)
    ensures r.None? <==> forall i :: 0 <= i < |photographers| ==> photographers[i].UserId != Some(userId)
  {
    FirstWhere(photographers, LinkedPhotographer(userId))
  }

  /** `Clients.FirstOrDefaultAsync(c => c.UserId == userId)` */
  function ClientOf(clients: seq<Client>, userId: string): (r: Option<Client>)
    ensures r.Some? ==> r.value in clients && r.value.UserId == Some(userId)
    ensures r.None? <==> forall i :: 0 <= i < |clients| ==> clients[i].UserId != Some(userId)
  {
    FirstWhere(clients, LinkedClient(userId))
  }

  /** Some photographer profile linked to the caller has this id. */
  ghost predicate OwnsAsPhotographer(c: Caller, photographers: seq<Photographer>, photographerId: int) {
    c.UserId.Some? &&
    exists p :: p in photographers && p.UserId == c.UserId && p.Id == photographerId
  }

  /** Some client profile linked to the caller has this id. */
  ghost predicate OwnsAsClient(c: Caller, clients: seq<Client>, clientId: int) {
    c.UserId.Some? &&
    exists cl :: cl in clients && cl.UserId == c.UserId && cl.Id == clientId
  }

  // ---------------------------------------------------------------------------------------
  // Sessions

  /** Which sessions GetSessions lists. */
  datatype Scope = Everything | OfPhotographer(PhotographerId: int) | OfClient(ClientId: int)

  predicate InScope(scope: Scope, s: PhotoSession) {
    match scope
    case Everything => true
    case OfPhotographer(id) => s.PhotographerId == id
    case OfClient(id) => s.ClientId == id
  }

  function ScopeFilter(scope: Scope): PhotoSession -> bool {
    s => InScope(scope, s)
  }

  /** The role scoping GetSessions filters by and CreateSession stamps: the photographer
      branch is tried first, then the client branch; a caller with neither role is not
      scoped at all. */
  function CallerScope(c: Caller, photographers: seq<Photographer>, clients: seq<Client>): (r: Result<Scope, Failure>)
    ensures Anonymous(c) ==> r == Failure(Unauthorized)
    ensures !Anonymous(c) && IsInRole(c, PhotographerRole) ==>
      && (r.Failure? <==> PhotographerOf(photographers, c.UserId.value).None?)
      && (r.Failure? ==> r.error == NotFound(NoPhotographerProfile))
      && (r.Success? ==> r.value.OfPhotographer? && OwnsAsPhotographer(c, photographers, r.value.PhotographerId))
    ensures !Anonymous(c) && !IsInRole(c, PhotographerRole) && IsInRole(c, ClientRole) ==>
      && (r.Failure? <==> ClientOf(clients, c.UserId.value).None?)
      && (r.Failure? ==> r.error == NotFound(NoClientProfile))
      && (r.Success? ==> r.value.OfClient? && OwnsAsClient(c, clients, r.value.ClientId))
    ensures !Anonymous(c) && !IsInRole(c, PhotographerRole) && !IsInRole(c, ClientRole) ==>
      r == Success(Everything)
  {
    if Anonymous(c) then Failure(Unauthorized)
    else if IsInRole(c, PhotographerRole) then
      match PhotographerOf(photographers, c.UserId.value)
      case None => Failure(NotFound(NoPhotographerProfile))
      case Some(p) => Success(OfPhotographer(p.Id))
    else if IsInRole(c, ClientRole) then
      match ClientOf(clients, c.UserId.value)
      case None => Failure(NotFound(NoClientProfile))
      case Some(cl) => Success(OfClient(cl.Id))
    else Success(Everything)
  }

  /** The check GetSession, DeleteSession and UploadPhoto make: Unauthorized, then NotFound
      for a missing session, then the role branch; a caller with neither role passes. */
  function SessionAccess(c: Caller, photographers: seq<Photographer>, clients: seq<Client>, session: Option<PhotoSession>): (r: Outcome)
    ensures Anonymous(c) ==> r == Deny(Unauthorized)
    ensures !Anonymous(c) && session.None? ==> r == Deny(NotFound(""))
    ensures r.Deny? ==> r.Failure in {Unauthorized, NotFound(""), Forbidden}
    ensures r == Pass && IsInRole(c, PhotographerRole) ==>
      OwnsAsPhotographer(c, photographers, session.value.PhotographerId)
    ensures r == Pass && !IsInRole(c, PhotographerRole) && IsInRole(c, ClientRole) ==>
      OwnsAsClient(c, clients, session.value.ClientId)
    ensures !Anonymous(c) && session.Some? && IsInRole(c, PhotographerRole) ==>
      (r == Pass <==> PhotographerOf(photographers, c.UserId.value).Some? &&
                      PhotographerOf(photographers, c.UserId.value).value.Id == session.value.PhotographerId)
    ensures !Anonymous(c) && session.Some? && !IsInRole(c, PhotographerRole) && IsInRole(c, ClientRole) ==>
      (r == Pass <==> ClientOf(clients, c.UserId.value).Some? &&
                      ClientOf(clients, c.UserId.value).value.Id == session.value.ClientId)
    ensures !Anonymous(c) && session.Some? && !IsInRole(c, PhotographerRole) && !IsInRole(c, ClientRole) ==>
      r == Pass
  {
    if Anonymous(c) then Deny(Unauthorized)
    else if session.None? then Deny(NotFound(""))
    else if IsInRole(c, PhotographerRole) then
      match PhotographerOf(photographers, c.UserId.value)
      case None => Deny(Forbidden)
      case Some(p) => if session.value.PhotographerId != p.Id then Deny(Forbidden) else Pass
    else if IsInRole(c, ClientRole) then
      match ClientOf(clients, c.UserId.value)
      case None => Deny(Forbidden)
      case Some(cl) => if session.value.ClientId != cl.Id then Deny(Forbidden) else Pass
    else Pass
  }

  /** UpdateSession: the route/body id comparison comes before everything else, even before
      the caller is identified. */
  function SessionUpdateAccess(c: Caller, photographers: seq<Photographer>, clients: seq<Client>,
                               id: int, body: PhotoSession, existing: Option<PhotoSession>): (r: Outcome)
    ensures r == Deny(BadRequest) <==> id != body.Id
    ensures id == body.Id ==> r == SessionAccess(c, photographers, clients, existing)
  {
    if id != body.Id then Deny(BadRequest)
    else SessionAccess(c, photographers, clients, existing)
  }

  /** ApprovePhoto: only a Client may approve, and this is checked before any lookup; the
      photo must exist under that session; the caller's client profile must own the session. */
  function PhotoApprovalAccess(c: Caller, clients: seq<Client>, sessions: seq<PhotoSession>, photo: Option<Photo>): (r: Outcome)
    ensures Anonymous(c) ==> r == Deny(Unauthorized)
    ensures !Anonymous(c) && !IsInRole(c, ClientRole) ==> r == Deny(Forbidden)
    ensures !Anonymous(c) && IsInRole(c, ClientRole) && photo.None? ==> r == Deny(NotFound(""))
    ensures r == Pass <==>
      && !Anonymous(c) && IsInRole(c, ClientRole) && photo.Some?
      && ClientOf(clients, c.UserId.value).Some?
      && FindKey(sessions, SessionKey, photo.value.PhotoSessionId).Some?
      && FindKey(sessions, SessionKey, photo.value.PhotoSessionId).value.ClientId == ClientOf(clients, c.UserId.value).value.Id
    ensures r == Pass ==> exists s :: s in sessions && s.Id == photo.value.PhotoSessionId && OwnsAsClient(c, clients, s.ClientId)
  {
    if Anonymous(c) then Deny(Unauthorized)
    else if !IsInRole(c, ClientRole) then Deny(Forbidden)
    else if photo.None? then Deny(NotFound(""))
    else
      match ClientOf(clients, c.UserId.value)
      case None => Deny(Forbidden)
      case Some(cl) =>
        match FindKey(sessions, SessionKey, photo.value.PhotoSessionId)
        case None => Deny(Forbidden)
        case Some(s) => if s.ClientId != cl.Id then Deny(Forbidden) else Pass
  }

  // ---------------------------------------------------------------------------------------
  // Calendars

  function OwnedBy(photographerId: int, userId: Option<string>): Photographer -> bool {
    (p: Photographer) => p.Id == photographerId && p.UserId == userId
  }

  /** The calendar endpoints' check: some photographer has both the requested id and the
      caller's user id (an absent caller id matches an unlinked profile, as the query's null
      comparison does); otherwise Forbid. There is no Unauthorized branch. */
  function CalendarAccess(photographers: seq<Photographer>, userId: Option<string>, photographerId: int): (r: Outcome)
    ensures r == Pass <==> exists p :: p in photographers && p.Id == photographerId && p.UserId == userId
    ensures r.Deny? ==> r.Failure == Forbidden
  {
    if FirstWhere(photographers, OwnedBy(photographerId, userId)).Some? then Pass else Deny(Forbidden)
  }

  /** GetEvent and DeleteEvent: NotFound for a missing event comes before the owner check,
      which asks whether the caller owns the photographer of the event's calendar. */
  function EventAccess(photographers: seq<Photographer>, calendars: seq<Calendar>, userId: Option<string>, event: Option<CalendarEvent>): (r: Outcome)
    ensures event.None? ==> r == Deny(NotFound(""))
    ensures event.Some? ==> r.Deny? ==> r.Failure == Forbidden
    ensures r == Pass <==>
      && event.Some?
      && FindKey(calendars, CalendarKey, event.value.CalendarId).Some?
      && exists p :: p in photographers && p.Id == FindKey(calendars, CalendarKey, event.value.CalendarId).value.PhotographerId && p.UserId == userId
  {
    if event.None? then Deny(NotFound(""))
    else
      match FindKey(calendars, CalendarKey, event.value.CalendarId)
      case None => Deny(Forbidden)
      case Some(cal) => CalendarAccess(photographers, userId, cal.PhotographerId)
  }

  /** UpdateEvent: BadRequest on an id mismatch first, then as EventAccess. */
  function EventUpdateAccess(photographers: seq<Photographer>, calendars: seq<Calendar>, userId: Option<string>,
                             id: int, body: CalendarEvent, existing: Option<CalendarEvent>): (r: Outcome)
    ensures r == Deny(BadRequest) <==> id != body.Id
    ensures id == body.Id ==> r == EventAccess(photographers, calendars, userId, existing)
  {
    if id != body.Id then Deny(BadRequest)
    else EventAccess(photographers, calendars, userId, existing)
  }

  // ---------------------------------------------------------------------------------------
  // Photographer profiles

  /** CreatePhotographer rejects only an absent caller id (an empty one is accepted). */
  function ProfileCreateAccess(userId: Option<string>): (r: Outcome)
    ensures r == Pass <==> userId.Some?
    ensures r.Deny? ==> r.Failure == Unauthorized
  {
    if userId.None? then Deny(Unauthorized) else Pass
  }

  /** DeletePhotographer: NotFound, then Forbid unless the profile's UserId is the caller's. */
  function ProfileOwnerAccess(userId: Option<string>, existing: Option<Photographer>): (r: Outcome)
    ensures existing.None? ==> r == Deny(NotFound(""))
    ensures r == Pass <==> existing.Some? && existing.value.UserId == userId
    ensures existing.Some? && r.Deny? ==> r.Failure == Forbidden
  {
    if existing.None? then Deny(NotFound(""))
    else if existing.value.UserId != userId then Deny(Forbidden)
    else Pass
  }

  /** UpdatePhotographer: BadRequest, then NotFound, then Forbid. */
  function ProfileUpdateAccess(userId: Option<string>, id: int, body: Photographer, existing: Option<Photographer>): (r: Outcome)
    ensures r == Deny(BadRequest) <==> id != body.Id
    ensures id == body.Id && existing.None? ==> r == Deny(NotFound(""))
    ensures r == Pass <==> id == body.Id && existing.Some? && existing.value.UserId == userId
  {
    if id != body.Id then Deny(BadRequest)
    else ProfileOwnerAccess(userId, existing)
  }

  // ---------------------------------------------------------------------------------------
  // One policy, and how the endpoints relate to it

  /** The ownership guard read as a single policy on a resource owned by a photographer and
      a client profile. */
  datatype Verdict = Owner | NotOwner | NoProfile | NoRole

  function Guard(c: Caller, photographers: seq<Photographer>, clients: seq<Client>, photographerId: int, clientId: int): Verdict
    requires !Anonymous(c)
  {
    if IsInRole(c, PhotographerRole) then
      match PhotographerOf(photographers, c.UserId.value)
      case None => NoProfile
      case Some(p) => if p.Id == photographerId then Owner else NotOwner
    else if IsInRole(c, ClientRole) then
      match ClientOf(clients, c.UserId.value)
      case None => NoProfile
      case Some(cl) => if cl.Id == clientId then Owner else NotOwner
    else NoRole
  }

  /** Item endpoints let the owner and a caller with neither role through, and Forbid a
      non-owner and a caller whose role has no profile. */
  lemma ItemEndpointsFollowGuard(c: Caller, photographers: seq<Photographer>, clients: seq<Client>, s: PhotoSession)
    requires !Anonymous(c)
    ensures SessionAccess(c, photographers, clients, Some(s)) == Pass <==>
      Guard(c, photographers, clients, s.PhotographerId, s.ClientId) in {Owner, NoRole}
    ensures SessionAccess(c, photographers, clients, Some(s)) == Deny(Forbidden) <==>
      Guard(c, photographers, clients, s.PhotographerId, s.ClientId) in {NotOwner, NoProfile}
  {
  }

  /** The list endpoint shows a session exactly when the item endpoints would let the caller
      at it, except that a missing profile is NotFound for the list and Forbid for an item. */
  lemma ListAgreesWithItems(c: Caller, photographers: seq<Photographer>, clients: seq<Client>, s: PhotoSession)
    requires !Anonymous(c)
    ensures CallerScope(c, photographers, clients).Failure? <==>
      Guard(c, photographers, clients, s.PhotographerId, s.ClientId) == NoProfile
    ensures CallerScope(c, photographers, clients).Failure? ==>
      SessionAccess(c, photographers, clients, Some(s)) == Deny(Forbidden)
    ensures CallerScope(c, photographers, clients).Success? ==>
      (InScope(CallerScope(c, photographers, clients).value, s) <==> SessionAccess(c, photographers, clients, Some(s)) == Pass)
  {
  }

  /** The seeded Administrator role grants nothing: adding it to a caller changes no
      session decision. */
  lemma AdministratorIsNotABypass(c: Caller, photographers: seq<Photographer>, clients: seq<Client>,
                                  sessions: seq<PhotoSession>, session: Option<PhotoSession>, photo: Option<Photo>)
    ensures var a := c.(Roles := c.Roles + [Administrator]);
      && CallerScope(a, photographers, clients) == CallerScope(c, photographers, clients)
      && SessionAccess(a, photographers, clients, session) == SessionAccess(c, photographers, clients, session)
      && PhotoApprovalAccess(a, clients, sessions, photo) == PhotoApprovalAccess(c, clients, sessions, photo)
  {
    var a := c.(Roles := c.Roles + [Administrator]);
    assert IsInRole(a, PhotographerRole) == IsInRole(c, PhotographerRole);
    assert IsInRole(a, ClientRole) == IsInRole(c, ClientRole);
  }

  /** A profile that is not linked to any user is open to a caller whose token carries no
      user id, in the calendar and profile checks (they compare possibly-null ids). */
  lemma UnlinkedProfileMatchesMissingCaller(photographers: seq<Photographer>, p: Photographer)
    requires p in photographers && p.UserId.None?
    ensures CalendarAccess(photographers, None, p.Id) == Pass
    ensures ProfileOwnerAccess(None, Some(p)) == Pass
  {
  }
}
