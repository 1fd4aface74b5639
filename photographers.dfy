/** PhotographersController: the public listing of photographer profiles, and the profile
    owner's create, edit and delete. A profile is owned by the identity user whose id it
    carries; only that caller may edit or delete it. */
module Photographers {
  import opened Base
  import opened Entities
  import opened Store
  import opened Access

  /** The projection the read endpoints reply with. */
  datatype PhotographerSummary = PhotographerSummary(
    Id: int,
    FirstName: string,
    LastName: string,
    Email: string,
    Phone: Option<string>,
    Specialization: string,
    HourlyRate: real,
    Portfolio: Option<string>,
    Name: string)

  /** `$"{p.FirstName} {p.LastName}"` */
  function DisplayName(first: string, last: string): (r: string)
    ensures |r| == |first| + 1 + |last|
    ensures r[..|first|] == first && r[|first|] == ' ' && r[|first| + 1..] == last
  {
    first + " " + last
  }

  function IsSpace(c: char): bool {
    c == ' '
  }

  /** With no space in the first name, the first space of the display name follows it. */
  lemma FirstSpaceEndsFirstName(first: string, last: string)
    requires ' ' !in first
    ensures FirstIndex(DisplayName(first, last), IsSpace) == Some(|first|)
  {
    var n := DisplayName(first, last);
    assert forall j :: 0 <= j < |first| ==> n[j] == first[j];
  }

  /** When first names have no space the display name determines both names. */
  lemma DisplayNameInjective(f1: string, l1: string, f2: string, l2: string)
    requires ' ' !in f1 && ' ' !in f2
    requires DisplayName(f1, l1) == DisplayName(f2, l2)
    ensures f1 == f2 && l1 == l2
  {
    FirstSpaceEndsFirstName(f1, l1);
    FirstSpaceEndsFirstName(f2, l2);
  }

  function SummaryOf(p: Photographer): (s: PhotographerSummary)
    ensures s.Id == p.Id && s.FirstName == p.FirstName && s.LastName == p.LastName && s.Email == p.Email
    ensures s.Phone == p.Phone && s.Specialization == p.Specialization && s.HourlyRate == p.HourlyRate
    ensures s.Portfolio == p.Portfolio
    ensures s.Name == DisplayName(p.FirstName, p.LastName)
  {
    PhotographerSummary(p.Id, p.FirstName, p.LastName, p.Email, p.Phone, p.Specialization,
                        p.HourlyRate, p.Portfolio, DisplayName(p.FirstName, p.LastName))
  }

  function LinkedTo(userId: string): Photographer -> bool {
    (p: Photographer) => p.UserId == Some(userId)
  }

  /** UpdatePhotographer's field copy: names, e-mail, phone, specialization, rate and
      portfolio from the request; the key, the owner, the bio, the website and the creation
      time stay as stored. */
  function ApplyProfileEdit(existing: Photographer, edit: Photographer): (p: Photographer)
    ensures p.Id == existing.Id && p.UserId == existing.UserId && p.CreatedAt == existing.CreatedAt
    ensures p.Bio == existing.Bio && p.Website == existing.Website
    ensures p.(Id := edit.Id, UserId := edit.UserId, CreatedAt := edit.CreatedAt, Bio := edit.Bio, Website := edit.Website) == edit
  {
    existing.(FirstName := edit.FirstName, LastName := edit.LastName, Email := edit.Email, Phone := edit.Phone,
              Specialization := edit.Specialization, HourlyRate := edit.HourlyRate, Portfolio := edit.Portfolio)
  }

  /** CreatePhotographer's new profile: owned by the caller, stamped with the clock. */
  function NewProfile(id: int, userId: string, body: Photographer, now: Time): (p: Photographer)
    ensures ProfileOwnerAccess(Some(userId), Some(p)) == Pass
  {
    body.(Id := id, UserId := Some(userId), CreatedAt := now)
  }

  /** The unique index on the profiles' UserId (the one-to-one link to the identity user):
      no two profiles are linked to the same user. Unlinked profiles are not constrained. */
  ghost predicate OneProfilePerUser(photographers: seq<Photographer>) {
    forall i, j :: 0 <= i < j < |photographers| && photographers[i].UserId.Some? ==>
      photographers[i].UserId != photographers[j].UserId
  }

  /** CreatePhotographer as a transition of the photographer table: Unauthorized for a caller
      with no id; when a profile is already linked to the caller the save breaks the unique
      UserId index and throws; otherwise the new profile is appended under `next`. */
  function CreateProfiles(userId: Option<string>, photographers: seq<Photographer>, next: int, body: Photographer, now: Time)
    : (Result<Photographer, Failure>, seq<Photographer>)
  {
    if ProfileCreateAccess(userId).Deny? then (Failure(Unauthorized), photographers)
    else if FirstIndex(photographers, LinkedTo(userId.value)).Some? then (Failure(ServerError), photographers)
    else
      var p := NewProfile(next, userId.value, body, now);
      (Success(p), photographers + [p])
  }

  /** UpdatePhotographer as a transition of the photographer table. */
  function EditProfiles(userId: Option<string>, photographers: seq<Photographer>, id: int, body: Photographer): (Outcome, seq<Photographer>) {
    match IndexOfKey(photographers, PhotographerKey, id)
    case None => (ProfileUpdateAccess(userId, id, body, None), photographers)
    case Some(i) =>
      var r := ProfileUpdateAccess(userId, id, body, Some(photographers[i]));
      if r == Pass then (Pass, photographers[i := ApplyProfileEdit(photographers[i], body)]) else (r, photographers)
  }

  /** DeletePhotographer as a transition of the photographer table. */
  function DeleteProfiles(userId: Option<string>, photographers: seq<Photographer>, id: int): (Outcome, seq<Photographer>) {
    var r := ProfileOwnerAccess(userId, FindKey(photographers, PhotographerKey, id));
    if r == Pass then (Pass, RemoveKey(photographers, PhotographerKey, id)) else (r, photographers)
  }

  class PhotographersController {
    const db: Store

    constructor (db: Store)
      ensures this.db == db
    {
      this.db := db;
    }

    /** GET /photographers: every profile's summary, in table order. */
    method GetPhotographers() returns (r: seq<PhotographerSummary>)
      ensures |r| == |db.photographers|
      ensures forall i :: 0 <= i < |r| ==> r[i] == SummaryOf(db.photographers[i])
    {
      var ps := db.photographers;
      r := seq(|ps|, i requires 0 <= i < |ps| => SummaryOf(ps[i]));
    }

    /** GET /photographers/user/{userId}: the first profile linked to that identity user. */
    method GetPhotographerByUserId(userId: string) returns (r: Result<PhotographerSummary, Failure>)
      ensures r.Failure? <==> forall i :: 0 <= i < |db.photographers| ==> db.photographers[i].UserId != Some(userId)
      ensures r.Failure? ==> r.error == NotFound("")
      ensures r.Success? ==> exists i :: 0 <= i < |db.photographers| && db.photographers[i].UserId == Some(userId) &&
                               r.value == SummaryOf(db.photographers[i]) &&
                               forall j :: 0 <= j < i ==> db.photographers[j].UserId != Some(userId)
    {
      var idx := FirstIndex(db.photographers, LinkedTo(userId));
      if idx.None? {
        return Failure(NotFound(""));
      }
      r := Success(SummaryOf(db.photographers[idx.value]));
    }

    /** GET /photographers/{id} */
    method GetPhotographer(id: int) returns (r: Result<PhotographerSummary, Failure>)
      ensures r.Failure? <==> forall i :: 0 <= i < |db.photographers| ==> db.photographers[i].Id != id
      ensures r.Failure? ==> r.error == NotFound("")
      ensures r.Success? ==> exists p :: p in db.photographers && p.Id == id && r.value == SummaryOf(p)
    {
      var found := FindKey(db.photographers, PhotographerKey, id);
      if found.None? {
        return Failure(NotFound(""));
      }
      r := Success(SummaryOf(found.value));
    }

    /** POST /photographers: a new profile owned by the caller. */
    method CreatePhotographer(c: Caller, body: Photographer, now: Time) returns (r: Result<Photographer, Failure>)
      requires db.Valid()
      modifies db`photographers, db`nextId
      ensures db.Valid()
      ensures (r, db.photographers) == CreateProfiles(c.UserId, old(db.photographers), old(db.nextId), body, now)
      ensures db.nextId == if r.Success? then old(db.nextId) + 1 else old(db.nextId)
    {
      if ProfileCreateAccess(c.UserId).Deny? {
        return Failure(Unauthorized);
      }
      if FirstIndex(db.photographers, LinkedTo(c.UserId.value)).Some? {
        return Failure(ServerError);
      }
      var p := AddProfile(c.UserId.value, body, now);
      r := Success(p);
    }

    /** Stores the caller's new profile under a fresh key. */
    method AddProfile(userId: string, body: Photographer, now: Time) returns (p: Photographer)
      requires db.Valid()
      modifies db`photographers, db`nextId
      ensures db.Valid()
      ensures p == NewProfile(old(db.nextId), userId, body, now)
      ensures db.photographers == old(db.photographers) + [p] && db.nextId == old(db.nextId) + 1
    {
      var id := db.NewId();
      p := NewProfile(id, userId, body, now);
      KeyedAppend(db.photographers, PhotographerKey, id, p);
      db.photographers := db.photographers + [p];
    }

    /** PUT /photographers/{id} */
    method UpdatePhotographer(c: Caller, id: int, body: Photographer) returns (r: Outcome)
      requires db.Valid()
      modifies db`photographers
      ensures db.Valid()
      ensures (r, db.photographers) == EditProfiles(c.UserId, old(db.photographers), id, body)
    {
      if id != body.Id {
        return Deny(BadRequest);
      }
      var idx := IndexOfKey(db.photographers, PhotographerKey, id);
      var existing := if idx.Some? then Some(db.photographers[idx.value]) else None;
      r := ProfileOwnerAccess(c.UserId, existing);
      if r.Deny? {
        return;
      }
      var i := idx.value;
      var edited := ApplyProfileEdit(db.photographers[i], body);
      KeyedReplace(db.photographers, PhotographerKey, db.nextId, i, edited);
      db.photographers := db.photographers[i := edited];
    }

    /** DELETE /photographers/{id} */
    method DeletePhotographer(c: Caller, id: int) returns (r: Outcome)
      requires db.Valid()
      modifies db`photographers
      ensures db.Valid()
      ensures (r, db.photographers) == DeleteProfiles(c.UserId, old(db.photographers), id)
    {
      var idx := IndexOfKey(db.photographers, PhotographerKey, id);
      var found := if idx.Some? then Some(db.photographers[idx.value]) else None;
      r := ProfileOwnerAccess(c.UserId, found);
      if r.Deny? {
        return;
      }
      var i := idx.value;
      RemoveAtIsRemoveKey(db.photographers, PhotographerKey, db.nextId, i);
      KeyedRemoveAt(db.photographers, PhotographerKey, db.nextId, i);
      db.photographers := db.photographers[..i] + db.photographers[i + 1..];
    }
  }

  /** The caller who creates a profile may then edit it and delete it. */
  lemma CreatorOwnsProfile(photographers: seq<Photographer>, next: int, userId: string, body: Photographer, now: Time, edit: Photographer)
    requires Keyed(photographers, PhotographerKey, next) && edit.Id == next
    ensures var p := NewProfile(next, userId, body, now);
      && EditProfiles(Some(userId), photographers + [p], next, edit).0 == Pass
      && DeleteProfiles(Some(userId), photographers + [p], next).0 == Pass
  {
    var p := NewProfile(next, userId, body, now);
    KeyedAppend(photographers, PhotographerKey, next, p);
    IndexOfKeyUnique(photographers + [p], PhotographerKey, next + 1, |photographers|);
  }

  /** Repeating an update is the same decision and leaves the table as the first left it. */
  lemma EditProfilesIdempotent(userId: Option<string>, photographers: seq<Photographer>, id: int, body: Photographer)
    ensures var (r, after) := EditProfiles(userId, photographers, id, body);
      EditProfiles(userId, after, id, body) == (r, after)
  {
    match IndexOfKey(photographers, PhotographerKey, id)
    case None =>
    case Some(i) =>
      if ProfileUpdateAccess(userId, id, body, Some(photographers[i])) == Pass {
        var edited := ApplyProfileEdit(photographers[i], body);
        var after := photographers[i := edited];
        IndexOfKeyReplace(photographers, PhotographerKey, id, i, edited);
        assert ApplyProfileEdit(edited, body) == edited;
        assert after[i := edited] == after;
      }
  }

  /** An edit never changes any profile's owner, so it never changes who may edit or delete
      any profile, nor which profile a user id is linked to. */
  lemma EditProfilesKeepsOwners(userId: Option<string>, photographers: seq<Photographer>, id: int, body: Photographer,
                                other: Option<string>, key: int, user: string)
    ensures var after := EditProfiles(userId, photographers, id, body).1;
      && |after| == |photographers|
      && ProfileOwnerAccess(other, FindKey(after, PhotographerKey, key)) == ProfileOwnerAccess(other, FindKey(photographers, PhotographerKey, key))
      && FirstIndex(after, LinkedTo(user)) == FirstIndex(photographers, LinkedTo(user))
  {
    var after := EditProfiles(userId, photographers, id, body).1;
    assert forall j :: 0 <= j < |after| ==> after[j].Id == photographers[j].Id && after[j].UserId == photographers[j].UserId;
    FirstIndexAgree(after, photographers, HasKey(PhotographerKey, key), HasKey(PhotographerKey, key));
    FirstIndexAgree(after, photographers, LinkedTo(user), LinkedTo(user));
  }

  /** After a permitted delete the profile is gone, exactly one row fewer remains, and every
      other profile is still there. */
  lemma DeletedProfileIsGone(userId: Option<string>, photographers: seq<Photographer>, next: int, id: int)
    requires Keyed(photographers, PhotographerKey, next)
    ensures var (r, after) := DeleteProfiles(userId, photographers, id);
      && (r != Pass ==> after == photographers)
      && (r == Pass ==>
            && FindKey(after, PhotographerKey, id).None?
            && |after| == |photographers| - 1
            && forall i :: 0 <= i < |photographers| && photographers[i].Id != id ==> photographers[i] in after)
  {
    var (r, after) := DeleteProfiles(userId, photographers, id);
    if r == Pass {
      var i := IndexOfKey(photographers, PhotographerKey, id).value;
      RemoveAtIsRemoveKey(photographers, PhotographerKey, next, i);
    }
  }

  /** Unauthorized exactly for a caller with no id, the index failure exactly when a profile
      is already linked to the caller, and neither stores anything. Otherwise the caller owns
      a profile under the fresh key, and the lookup by user id now finds it. */
  lemma CreateProfilesEffect(userId: Option<string>, photographers: seq<Photographer>, next: int, body: Photographer, now: Time)
    ensures var (r, after) := CreateProfiles(userId, photographers, next, body, now);
      && (r == Failure(Unauthorized) <==> userId.None?)
      && (r == Failure(ServerError) <==>
            userId.Some? && exists i :: 0 <= i < |photographers| && photographers[i].UserId == userId)
      && (r.Failure? ==> after == photographers)
      && (r.Success? ==>
            && r.value.Id == next && r.value.UserId == userId
            && after == photographers + [r.value]
            && FirstWhere(after, LinkedTo(userId.value)) == Some(r.value))
  {
    var (r, after) := CreateProfiles(userId, photographers, next, body, now);
    if r.Success? {
      FirstIndexAppend(photographers, r.value, LinkedTo(userId.value));
    }
  }

  /** A create never links a second profile to a user. */
  lemma CreateProfilesKeepsOneProfilePerUser(userId: Option<string>, photographers: seq<Photographer>, next: int, body: Photographer, now: Time)
    requires OneProfilePerUser(photographers)
    ensures OneProfilePerUser(CreateProfiles(userId, photographers, next, body, now).1)
  {
    var (r, after) := CreateProfiles(userId, photographers, next, body, now);
    if r.Success? {
      forall i, j | 0 <= i < j < |after| && after[i].UserId.Some?
        ensures after[i].UserId != after[j].UserId
      {
        if j == |photographers| {
          assert !LinkedTo(userId.value)(photographers[i]);
        }
      }
    }
  }

  /** An update copies no owner, so it keeps every user's profile unique. */
  lemma EditProfilesKeepsOneProfilePerUser(userId: Option<string>, photographers: seq<Photographer>, id: int, body: Photographer)
    requires OneProfilePerUser(photographers)
    ensures OneProfilePerUser(EditProfiles(userId, photographers, id, body).1)
  {
    var after := EditProfiles(userId, photographers, id, body).1;
    assert forall j :: 0 <= j < |after| ==> after[j].UserId == photographers[j].UserId;
  }

  /** Deleting one position keeps every user's profile unique. */
  lemma RemoveAtKeepsOneProfilePerUser(photographers: seq<Photographer>, k: nat)
    requires k < |photographers| && OneProfilePerUser(photographers)
    ensures OneProfilePerUser(photographers[..k] + photographers[k + 1..])
  {
    var after := photographers[..k] + photographers[k + 1..];
    forall i, j | 0 <= i < j < |after| && after[i].UserId.Some?
      ensures after[i].UserId != after[j].UserId
    {
      var i' := if i < k then i else i + 1;
      var j' := if j < k then j else j + 1;
      assert after[i] == photographers[i'] && after[j] == photographers[j'];
    }
  }

  /** A delete removes one row, which keeps every user's profile unique. */
  lemma DeleteProfilesKeepsOneProfilePerUser(userId: Option<string>, photographers: seq<Photographer>, next: int, id: int)
    requires Keyed(photographers, PhotographerKey, next)
    requires OneProfilePerUser(photographers)
    ensures OneProfilePerUser(DeleteProfiles(userId, photographers, id).1)
  {
    if DeleteProfiles(userId, photographers, id).0 == Pass {
      var k := IndexOfKey(photographers, PhotographerKey, id).value;
      RemoveAtIsRemoveKey(photographers, PhotographerKey, next, k);
      RemoveAtKeepsOneProfilePerUser(photographers, k);
    }
  }
}
