/** SessionsController: listing, reading, booking, editing and cancelling photo sessions,
    uploading photos to a session and a client's approval of a photo. Every handler first
    takes the decision of module Access and then changes at most one table. The handlers
    that edit a row are specified by a transition function on that table, about which the
    lemmas at the end are stated. */
module Sessions {
  import opened Base
  import opened Entities
  import opened Store
  import opened Access

  const UploadDir := "/uploads/"

  /** The photo ApprovePhoto looks up: with that session id and that photo id. */
  function PhotoAt(sessionId: int, photoId: int): Photo -> bool {
    (p: Photo) => p.PhotoSessionId == sessionId && p.Id == photoId
  }

  /** CreateSession's overwrite of the owner the caller speaks for. */
  function AssignToCaller(scope: Scope, body: PhotoSession): (s: PhotoSession)
    ensures InScope(scope, s)
    ensures scope.Everything? ==> s == body
    ensures scope.OfPhotographer? ==> s == body.(PhotographerId := s.PhotographerId)
    ensures scope.OfClient? ==> s == body.(ClientId := s.ClientId)
  {
    match scope
    case Everything => body
    case OfPhotographer(id) => body.(PhotographerId := id)
    case OfClient(id) => body.(ClientId := id)
  }

  /** UpdateSession's field copy: date, status, description, location and price come from
      the request; the key, both owners, the title and the timestamps stay as stored. */
  function ApplySessionEdit(existing: PhotoSession, edit: PhotoSession): (s: PhotoSession)
    ensures s.Date == edit.Date && s.Status == edit.Status && s.Description == edit.Description
    ensures s.Location == edit.Location && s.Price == edit.Price
    ensures s.Id == existing.Id && s.ClientId == existing.ClientId && s.PhotographerId == existing.PhotographerId
    ensures s.Title == existing.Title && s.CreatedAt == existing.CreatedAt && s.UpdatedAt == existing.UpdatedAt
  {
    existing.(Date := edit.Date, Status := edit.Status, Description := edit.Description,
              Location := edit.Location, Price := edit.Price)
  }

  /** The photo UploadPhoto records; the other fields keep their declared defaults. */
  function NewPhoto(id: int, sessionId: int, fileName: string, now: Time): (p: Photo)
    ensures p.Id == id && p.PhotoSessionId == sessionId && p.UploadedAt == now
    ensures p.Title == fileName && p.FileName == fileName
    ensures UploadDir <= p.FilePath && p.FilePath[|UploadDir|..] == fileName
    ensures !p.IsApproved && !p.IsProcessed && p.ApprovedAt.None?
  {
    Photo(id, sessionId, fileName, fileName, UploadDir + fileName, now, "", false, false, None)
  }

  /** UpdateSession as a transition of the session table: the decision, and the table after. */
  function EditSessions(c: Caller, photographers: seq<Photographer>, clients: seq<Client>,
                        sessions: seq<PhotoSession>, id: int, body: PhotoSession): (Outcome, seq<PhotoSession>)
  {
    match IndexOfKey(sessions, SessionKey, id)
    case None => (SessionUpdateAccess(c, photographers, clients, id, body, None), sessions)
    case Some(i) =>
      var r := SessionUpdateAccess(c, photographers, clients, id, body, Some(sessions[i]));
      if r == Pass then (Pass, sessions[i := ApplySessionEdit(sessions[i], body)]) else (r, sessions)
  }

  /** DeleteSession as a transition of the session table. */
  function DeleteSessions(c: Caller, photographers: seq<Photographer>, clients: seq<Client>,
                          sessions: seq<PhotoSession>, id: int): (Outcome, seq<PhotoSession>)
  {
    var r := SessionAccess(c, photographers, clients, FindKey(sessions, SessionKey, id));
    if r == Pass then (Pass, RemoveKey(sessions, SessionKey, id)) else (r, sessions)
  }

  /** ApprovePhoto as a transition of the photo table. */
  function ApprovePhotos(c: Caller, clients: seq<Client>, sessions: seq<PhotoSession>,
                         photos: seq<Photo>, sessionId: int, photoId: int): (Outcome, seq<Photo>)
  {
    var photo := FirstWhere(photos, PhotoAt(sessionId, photoId));
    var r := PhotoApprovalAccess(c, clients, sessions, photo);
    if r != Pass then (r, photos)
    else
      var i := FirstIndex(photos, PhotoAt(sessionId, photoId)).value;
      (Pass, photos[i := photos[i].(IsApproved := true)])
  }

  /** ApprovePhoto as written: the photo is loaded without its session and nothing else in
      the request loads that session, so `photo.PhotoSession` is null. Once the caller has a
      client profile, reading its ClientId throws before the approval is saved. */
  function ApprovePhotosAsWritten(c: Caller, clients: seq<Client>, photos: seq<Photo>, sessionId: int, photoId: int)
    : (Outcome, seq<Photo>)
  {
    if Anonymous(c) then (Deny(Unauthorized), photos)
    else if !IsInRole(c, ClientRole) then (Deny(Forbidden), photos)
    else if FirstWhere(photos, PhotoAt(sessionId, photoId)).None? then (Deny(NotFound("")), photos)
    else if ClientOf(clients, c.UserId.value).None? then (Deny(Forbidden), photos)
    else (Deny(ServerError), photos)
  }

  class SessionsController {
    const db: Store

    constructor (db: Store)
      ensures this.db == db
    {
      this.db := db;
    }

    /** GET /sessions: every session in the caller's scope, in table order. */
    method GetSessions(c: Caller) returns (r: Result<seq<PhotoSession>, Failure>)
      ensures var scope := CallerScope(c, db.photographers, db.clients);
        && (r.Failure? <==> scope.Failure?)
        && (r.Failure? ==> r.error == scope.error)
        && (r.Success? ==> r.value == Filter(db.sessions, ScopeFilter(scope.value)))
        && (r.Success? ==> forall i :: 0 <= i < |db.sessions| ==>
              (db.sessions[i] in r.value <==> InScope(scope.value, db.sessions[i])))
        && (r.Success? ==> forall s :: s in r.value ==> s in db.sessions)
    {
      var scope := CallerScope(c, db.photographers, db.clients);
      if scope.Failure? {
        return Failure(scope.error);
      }
      r := Success(Filter(db.sessions, ScopeFilter(scope.value)));
    }

    /** GET /sessions/{id} */
    method GetSession(c: Caller, id: int) returns (r: Result<PhotoSession, Failure>)
      ensures var found := FindKey(db.sessions, SessionKey, id);
        && (r.Success? <==> SessionAccess(c, db.photographers, db.clients, found) == Pass)
        && (r.Success? ==> r.value in db.sessions && r.value.Id == id)
        && (r.Failure? ==> SessionAccess(c, db.photographers, db.clients, found) == Deny(r.error))
    {
      var found := FindKey(db.sessions, SessionKey, id);
      var decision := SessionAccess(c, db.photographers, db.clients, found);
      if decision.Deny? {
        return Failure(decision.Failure);
      }
      r := Success(found.value);
    }

    /** POST /sessions: books the session under the caller's own profile, with a fresh key. */
    method CreateSession(c: Caller, body: PhotoSession) returns (r: Result<PhotoSession, Failure>)
      requires db.Valid()
      modifies db`sessions, db`nextId
      ensures db.Valid()
      ensures var scope := CallerScope(c, db.photographers, db.clients);
        && (r.Failure? <==> scope.Failure?)
        && (r.Failure? ==> r.error == scope.error && db.sessions == old(db.sessions) && db.nextId == old(db.nextId))
        && (r.Success? ==> r.value == AssignToCaller(scope.value, body).(Id := old(db.nextId)))
        && (r.Success? ==> db.sessions == old(db.sessions) + [r.value] && db.nextId == old(db.nextId) + 1)
        && (r.Success? ==> InScope(scope.value, r.value))
    {
      var scope := CallerScope(c, db.photographers, db.clients);
      if scope.Failure? {
        return Failure(scope.error);
      }
      var s := AddSession(AssignToCaller(scope.value, body));
      r := Success(s);
    }

    /** Stores a session row under a fresh key. */
    method AddSession(body: PhotoSession) returns (s: PhotoSession)
      requires db.Valid()
      modifies db`sessions, db`nextId
      ensures db.Valid()
      ensures s == body.(Id := old(db.nextId))
      ensures db.sessions == old(db.sessions) + [s] && db.nextId == old(db.nextId) + 1
    {
      var id := db.NewId();
      s := body.(Id := id);
      KeyedAppend(db.sessions, SessionKey, id, s);
      db.sessions := db.sessions + [s];
    }

    /** PUT /sessions/{id}: copies the editable fields onto the stored row. */
    method UpdateSession(c: Caller, id: int, body: PhotoSession) returns (r: Outcome)
      requires db.Valid()
      modifies db`sessions
      ensures db.Valid()
      ensures (r, db.sessions) == EditSessions(c, db.photographers, db.clients, old(db.sessions), id, body)
    {
      if id != body.Id {
        return Deny(BadRequest);
      }
      var idx := IndexOfKey(db.sessions, SessionKey, id);
      var existing := if idx.Some? then Some(db.sessions[idx.value]) else None;
      r := SessionAccess(c, db.photographers, db.clients, existing);
      if r.Deny? {
        return;
      }
      var i := idx.value;
      var edited := ApplySessionEdit(db.sessions[i], body);
      KeyedReplace(db.sessions, SessionKey, db.nextId, i, edited);
      db.sessions := db.sessions[i := edited];
    }

    /** DELETE /sessions/{id} */
    method DeleteSession(c: Caller, id: int) returns (r: Outcome)
      requires db.Valid()
      modifies db`sessions
      ensures db.Valid()
      ensures (r, db.sessions) == DeleteSessions(c, db.photographers, db.clients, old(db.sessions), id)
    {
      var idx := IndexOfKey(db.sessions, SessionKey, id);
      var found := if idx.Some? then Some(db.sessions[idx.value]) else None;
      r := SessionAccess(c, db.photographers, db.clients, found);
      if r.Deny? {
        return;
      }
      var i := idx.value;
      RemoveAtIsRemoveKey(db.sessions, SessionKey, db.nextId, i);
      KeyedRemoveAt(db.sessions, SessionKey, db.nextId, i);
      db.sessions := db.sessions[..i] + db.sessions[i + 1..];
    }

    /** POST /sessions/{id}/photos: records the uploaded file as a new photo of the session. */
    method UploadPhoto(c: Caller, id: int, fileName: string, now: Time) returns (r: Result<Photo, Failure>)
      requires db.Valid()
      modifies db`photos, db`nextId
      ensures db.Valid()
      ensures var decision := SessionAccess(c, db.photographers, db.clients, FindKey(db.sessions, SessionKey, id));
        && (r.Success? <==> decision == Pass)
        && (r.Failure? ==> decision == Deny(r.error) && db.photos == old(db.photos) && db.nextId == old(db.nextId))
        && (r.Success? ==> r.value == NewPhoto(old(db.nextId), id, fileName, now))
        && (r.Success? ==> db.photos == old(db.photos) + [r.value] && db.nextId == old(db.nextId) + 1)
    {
      var decision := SessionAccess(c, db.photographers, db.clients, FindKey(db.sessions, SessionKey, id));
      if decision.Deny? {
        return Failure(decision.Failure);
      }
      var p := AddPhoto(id, fileName, now);
      r := Success(p);
    }

    /** Stores the photo row for an uploaded file under a fresh key. */
    method AddPhoto(sessionId: int, fileName: string, now: Time) returns (p: Photo)
      requires db.Valid()
      modifies db`photos, db`nextId
      ensures db.Valid()
      ensures p == NewPhoto(old(db.nextId), sessionId, fileName, now)
      ensures db.photos == old(db.photos) + [p] && db.nextId == old(db.nextId) + 1
    {
      var photoId := db.NewId();
      p := NewPhoto(photoId, sessionId, fileName, now);
      KeyedAppend(db.photos, PhotoKey, photoId, p);
      db.photos := db.photos + [p];
    }

    /** PUT /sessions/{sessionId}/photos/{photoId}/approve */
    method ApprovePhoto(c: Caller, sessionId: int, photoId: int) returns (r: Outcome)
      requires db.Valid()
      modifies db`photos
      ensures db.Valid()
      ensures (r, db.photos) == ApprovePhotos(c, db.clients, db.sessions, old(db.photos), sessionId, photoId)
    {
      if Anonymous(c) {
        return Deny(Unauthorized);
      }
      if !IsInRole(c, ClientRole) {
        return Deny(Forbidden);
      }
      var idx := FirstIndex(db.photos, PhotoAt(sessionId, photoId));
      if idx.None? {
        return Deny(NotFound(""));
      }
      var i := idx.value;
      r := PhotoApprovalAccess(c, db.clients, db.sessions, Some(db.photos[i]));
      if r.Deny? {
        return;
      }
      var approved := db.photos[i].(IsApproved := true);
      KeyedReplace(db.photos, PhotoKey, db.nextId, i, approved);
      db.photos := db.photos[i := approved];
    }
  }

  /** The session decision reads only the session's two owner ids. */
  lemma SessionAccessReadsOwners(c: Caller, photographers: seq<Photographer>, clients: seq<Client>, s: PhotoSession, t: PhotoSession)
    requires s.PhotographerId == t.PhotographerId && s.ClientId == t.ClientId
    ensures SessionAccess(c, photographers, clients, Some(s)) == SessionAccess(c, photographers, clients, Some(t))
  {
  }

  /** Repeating an update is the same decision and leaves the table as the first one left it. */
  lemma EditSessionsIdempotent(c: Caller, photographers: seq<Photographer>, clients: seq<Client>,
                               sessions: seq<PhotoSession>, id: int, body: PhotoSession)
    ensures var (r, after) := EditSessions(c, photographers, clients, sessions, id, body);
      EditSessions(c, photographers, clients, after, id, body) == (r, after)
  {
    match IndexOfKey(sessions, SessionKey, id)
    case None =>
    case Some(i) =>
      if SessionUpdateAccess(c, photographers, clients, id, body, Some(sessions[i])) == Pass {
        var edited := ApplySessionEdit(sessions[i], body);
        var after := sessions[i := edited];
        IndexOfKeyReplace(sessions, SessionKey, id, i, edited);
        assert after[i := ApplySessionEdit(after[i], body)] == after;
      }
  }

  /** An update never changes who may reach any session: every session's decision, for
      every caller, is the same over the edited table as before. */
  lemma EditSessionsKeepsAccess(c: Caller, photographers: seq<Photographer>, clients: seq<Client>,
                                sessions: seq<PhotoSession>, id: int, body: PhotoSession, other: Caller, key: int)
    ensures var after := EditSessions(c, photographers, clients, sessions, id, body).1;
      SessionAccess(other, photographers, clients, FindKey(after, SessionKey, key)) ==
      SessionAccess(other, photographers, clients, FindKey(sessions, SessionKey, key))
  {
    var after := EditSessions(c, photographers, clients, sessions, id, body).1;
    FirstIndexAgree(after, sessions, HasKey(SessionKey, key), HasKey(SessionKey, key));
  }

  /** After a permitted delete the session is gone, exactly one row fewer remains, and every
      other session is still there. */
  lemma DeletedSessionIsGone(c: Caller, photographers: seq<Photographer>, clients: seq<Client>,
                             sessions: seq<PhotoSession>, next: int, id: int)
    requires Keyed(sessions, SessionKey, next)
    ensures var (r, after) := DeleteSessions(c, photographers, clients, sessions, id);
      r == Pass ==>
        && FindKey(after, SessionKey, id).None?
        && |after| == |sessions| - 1
        && forall i :: 0 <= i < |sessions| && sessions[i].Id != id ==> sessions[i] in after
  {
    var (r, after) := DeleteSessions(c, photographers, clients, sessions, id);
    if r == Pass {
      var i := IndexOfKey(sessions, SessionKey, id).value;
      RemoveAtIsRemoveKey(sessions, SessionKey, next, i);
    }
  }

  /** Repeating an approval is the same decision and changes nothing more. */
  lemma ApprovalIdempotent(c: Caller, clients: seq<Client>, sessions: seq<PhotoSession>,
                           photos: seq<Photo>, sessionId: int, photoId: int)
    ensures var (r, after) := ApprovePhotos(c, clients, sessions, photos, sessionId, photoId);
      ApprovePhotos(c, clients, sessions, after, sessionId, photoId) == (r, after)
  {
    var at := PhotoAt(sessionId, photoId);
    if PhotoApprovalAccess(c, clients, sessions, FirstWhere(photos, at)) == Pass {
      var i := FirstIndex(photos, at).value;
      var approved := photos[i].(IsApproved := true);
      var after := photos[i := approved];
      assert forall j :: 0 <= j < |after| ==> at(after[j]) == at(photos[j]);
      FirstIndexAgree(after, photos, at, at);
      assert FirstWhere(after, at) == Some(approved);
      assert after[i := after[i].(IsApproved := true)] == after;
    }
  }

  /** A permitted approval marks exactly the requested photo approved and touches no other
      photo and no other field. */
  lemma ApprovalMarksOnePhoto(c: Caller, clients: seq<Client>, sessions: seq<PhotoSession>,
                              photos: seq<Photo>, sessionId: int, photoId: int)
    ensures var (r, after) := ApprovePhotos(c, clients, sessions, photos, sessionId, photoId);
      && |after| == |photos|
      && (r == Pass ==>
            exists i :: (0 <= i < |photos| && photos[i].Id == photoId && photos[i].PhotoSessionId == sessionId &&
                         after[i] == photos[i].(IsApproved := true) &&
                         forall j :: 0 <= j < |photos| && j != i ==> after[j] == photos[j]))
      && (r != Pass ==> after == photos)
  {
  }

  /** The photo an upload records is the one ApprovePhoto finds under that session and key. */
  lemma UploadedPhotoIsFound(photos: seq<Photo>, next: int, sessionId: int, fileName: string, now: Time)
    requires Keyed(photos, PhotoKey, next)
    ensures var p := NewPhoto(next, sessionId, fileName, now);
      FirstWhere(photos + [p], PhotoAt(sessionId, next)) == Some(p)
  {
    var p := NewPhoto(next, sessionId, fileName, now);
    var all := photos + [p];
    forall j | 0 <= j < |photos|
      ensures !PhotoAt(sessionId, next)(all[j])
    {
      KeyedBelowBound(photos, PhotoKey, next, j);
      assert all[j] == photos[j];
    }
    FirstIndexIs(all, PhotoAt(sessionId, next), |photos|);
  }

  /** As written, ApprovePhoto never approves anything: wherever the intended check lets a
      client through, the handler throws instead, and on every other path the two agree. */
  lemma AsWrittenApprovalNeverApproves(c: Caller, clients: seq<Client>, sessions: seq<PhotoSession>,
                                       photos: seq<Photo>, sessionId: int, photoId: int)
    ensures var (r, after) := ApprovePhotosAsWritten(c, clients, photos, sessionId, photoId);
      && r != Pass && after == photos
      && (ApprovePhotos(c, clients, sessions, photos, sessionId, photoId).0 == Pass ==> r == Deny(ServerError))
      && (r != Deny(ServerError) ==> (r, after) == ApprovePhotos(c, clients, sessions, photos, sessionId, photoId))
  {
  }

  /** One input that shows it: a client whose profile owns session 2 approves photo 4 of that
      session. The intended check passes; the handler as written throws. */
  lemma ApprovalCrashExample()
    ensures var c := Caller(Some("client-user"), [ClientRole]);
      var clients := [Client(1, Some("client-user"), "Ann", "Lee", "ann@example.com", "", "", 0)];
      var sessions := [PhotoSession(2, 1, 3, "Portrait", 0, Scheduled, "", "", 0.0, 0, None)];
      var photos := [NewPhoto(4, 2, "a.jpg", 0)];
      && ApprovePhotos(c, clients, sessions, photos, 2, 4).0 == Pass
      && ApprovePhotosAsWritten(c, clients, photos, 2, 4) == (Deny(ServerError), photos)
  {
    var c := Caller(Some("client-user"), [ClientRole]);
    var clients := [Client(1, Some("client-user"), "Ann", "Lee", "ann@example.com", "", "", 0)];
    var sessions := [PhotoSession(2, 1, 3, "Portrait", 0, Scheduled, "", "", 0.0, 0, None)];
    var photos := [NewPhoto(4, 2, "a.jpg", 0)];
    FirstIndexIs(photos, PhotoAt(2, 4), 0);
    FirstIndexIs(clients, LinkedClient("client-user"), 0);
    IndexOfKeyUnique(sessions, SessionKey, 3, 0);
  }
}
