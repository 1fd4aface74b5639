/** CalendarController: a photographer's calendar and its events. Every photographer endpoint
    first checks that the caller owns the photographer profile (module Access), then creates
    the photographer's calendar on first use. The event endpoints check ownership through the
    event's calendar. */
module Calendars {
  import opened Base
  import opened Entities
  import opened Store
  import opened Access

  function OfPhotographer(photographerId: int): Calendar -> bool {
    (c: Calendar) => c.PhotographerId == photographerId
  }

  /** `photographer.Calendar`: the photographer's (first) calendar, if any. */
  function CalendarOf(calendars: seq<Calendar>, photographerId: int): (r: Option<Calendar>)
    ensures r.Some? ==> r.value in calendars && r.value.PhotographerId == photographerId
    ensures r.None? <==> forall i :: 0 <= i < |calendars| ==> calendars[i].PhotographerId != photographerId
  {
    FirstWhere(calendars, OfPhotographer(photographerId))
  }

  /** The calendar created on first use: the declared defaults and no events. */
  function NewCalendar(id: int, photographerId: int): Calendar {
    Calendar(id, photographerId, "", None, None)
  }

  /** The calendar table once the photographer is sure to have a calendar. */
  function WithCalendar(calendars: seq<Calendar>, photographerId: int, freshId: int): seq<Calendar> {
    if CalendarOf(calendars, photographerId).Some? then calendars
    else calendars + [NewCalendar(freshId, photographerId)]
  }

  /** After WithCalendar the photographer has a calendar: the one it had, or the new one;
      no other photographer's calendar changes. */
  lemma WithCalendarProvides(calendars: seq<Calendar>, photographerId: int, freshId: int, other: int)
    ensures var after := WithCalendar(calendars, photographerId, freshId);
      && CalendarOf(after, photographerId) ==
           (if CalendarOf(calendars, photographerId).Some? then CalendarOf(calendars, photographerId)
            else Some(NewCalendar(freshId, photographerId)))
      && (other != photographerId ==> CalendarOf(after, other) == CalendarOf(calendars, other))
  {
    var after := WithCalendar(calendars, photographerId, freshId);
    if CalendarOf(calendars, photographerId).None? {
      assert after[|calendars|] == NewCalendar(freshId, photographerId);
      FirstIndexAppend(calendars, NewCalendar(freshId, photographerId), OfPhotographer(photographerId));
      FirstIndexAppend(calendars, NewCalendar(freshId, photographerId), OfPhotographer(other));
    }
  }

  /** Creating the calendar on first use happens once: a second call adds nothing. */
  lemma WithCalendarIdempotent(calendars: seq<Calendar>, photographerId: int, first: int, second: int)
    ensures var after := WithCalendar(calendars, photographerId, first);
      WithCalendar(after, photographerId, second) == after
  {
    WithCalendarProvides(calendars, photographerId, first, photographerId);
  }

  /** An event is in a window of a photographer's calendar: its calendar belongs to the
      photographer, it starts no earlier than `start` and ends no later than `end`. */
  function InWindow(calendars: seq<Calendar>, photographerId: int, start: Time, end: Time): CalendarEvent -> bool {
    (e: CalendarEvent) =>
      && FindKey(calendars, CalendarKey, e.CalendarId).Some?
      && FindKey(calendars, CalendarKey, e.CalendarId).value.PhotographerId == photographerId
      && start <= e.Start
      && e.End <= end
  }

  /** UpdateEvent's field copy: title, description, times, location, type and session link
      from the request; the key and the calendar stay as stored. */
  function ApplyEventEdit(existing: CalendarEvent, edit: CalendarEvent): (e: CalendarEvent)
    ensures e.Id == existing.Id && e.CalendarId == existing.CalendarId
    ensures e.(Id := edit.Id, CalendarId := edit.CalendarId) == edit
  {
    existing.(Title := edit.Title, Description := edit.Description, Start := edit.Start, End := edit.End,
              Location := edit.Location, Type := edit.Type, PhotoSessionId := edit.PhotoSessionId)
  }

  /** UpdateEvent as a transition of the event table: the reply, and the table after. */
  function EditEvents(photographers: seq<Photographer>, calendars: seq<Calendar>, userId: Option<string>,
                      events: seq<CalendarEvent>, id: int, body: CalendarEvent): (Result<CalendarEvent, Failure>, seq<CalendarEvent>)
  {
    match IndexOfKey(events, EventKey, id)
    case None =>
      var r := EventUpdateAccess(photographers, calendars, userId, id, body, None);
      (Failure(r.Failure), events)
    case Some(i) =>
      var r := EventUpdateAccess(photographers, calendars, userId, id, body, Some(events[i]));
      if r.Deny? then (Failure(r.Failure), events)
      else
        var edited := ApplyEventEdit(events[i], body);
        (Success(edited), events[i := edited])
  }

  /** DeleteEvent as a transition of the event table. */
  function DeleteEvents(photographers: seq<Photographer>, calendars: seq<Calendar>, userId: Option<string>,
                        events: seq<CalendarEvent>, id: int): (Outcome, seq<CalendarEvent>)
  {
    var r := EventAccess(photographers, calendars, userId, FindKey(events, EventKey, id));
    if r == Pass then (Pass, RemoveKey(events, EventKey, id)) else (r, events)
  }

  class CalendarController {
    const db: Store

    constructor (db: Store)
      ensures this.db == db
    {
      this.db := db;
    }

    /** The first-use creation the photographer endpoints share. */
    method EnsureCalendar(photographerId: int) returns (cal: Calendar)
      requires db.Valid()
      modifies db`calendars, db`nextId
      ensures db.Valid()
      ensures db.calendars == WithCalendar(old(db.calendars), photographerId, old(db.nextId))
      ensures CalendarOf(old(db.calendars), photographerId).Some? ==> db.nextId == old(db.nextId)
      ensures CalendarOf(old(db.calendars), photographerId).None? ==> db.nextId == old(db.nextId) + 1
      ensures CalendarOf(db.calendars, photographerId) == Some(cal)
    {
      WithCalendarProvides(db.calendars, photographerId, db.nextId, photographerId);
      var existing := CalendarOf(db.calendars, photographerId);
      if existing.Some? {
        return existing.value;
      }
      cal := AddCalendar(photographerId);
    }

    /** Stores a new, empty calendar for the photographer under a fresh key. */
    method AddCalendar(photographerId: int) returns (cal: Calendar)
      requires db.Valid()
      modifies db`calendars, db`nextId
      ensures db.Valid()
      ensures cal == NewCalendar(old(db.nextId), photographerId)
      ensures db.calendars == old(db.calendars) + [cal] && db.nextId == old(db.nextId) + 1
    {
      var id := db.NewId();
      cal := NewCalendar(id, photographerId);
      KeyedAppend(db.calendars, CalendarKey, id, cal);
      db.calendars := db.calendars + [cal];
    }

    /** GET /calendar/photographer/{photographerId}: the calendar with its events. */
    method GetPhotographerCalendar(c: Caller, photographerId: int) returns (r: Result<(Calendar, seq<CalendarEvent>), Failure>)
      requires db.Valid()
      modifies db`calendars, db`nextId
      ensures db.Valid()
      ensures var decision := CalendarAccess(db.photographers, c.UserId, photographerId);
        && (decision.Deny? ==> r == Failure(Forbidden) && db.calendars == old(db.calendars) && db.nextId == old(db.nextId))
        && (decision == Pass ==>
              && db.calendars == WithCalendar(old(db.calendars), photographerId, old(db.nextId))
              && r.Success?
              && CalendarOf(db.calendars, photographerId) == Some(r.value.0)
              && r.value.1 == Filter(db.events, (e: CalendarEvent) => e.CalendarId == r.value.0.Id))
    {
      if CalendarAccess(db.photographers, c.UserId, photographerId).Deny? {
        return Failure(Forbidden);
      }
      var cal := EnsureCalendar(photographerId);
      r := Success((cal, Filter(db.events, (e: CalendarEvent) => e.CalendarId == cal.Id)));
    }

    /** GET /calendar/photographer/{photographerId}/events?start=&end= */
    method GetPhotographerEvents(c: Caller, photographerId: int, start: Time, end: Time) returns (r: Result<seq<CalendarEvent>, Failure>)
      requires db.Valid()
      modifies db`calendars, db`nextId
      ensures db.Valid()
      ensures var decision := CalendarAccess(db.photographers, c.UserId, photographerId);
        && (decision.Deny? ==> r == Failure(Forbidden) && db.calendars == old(db.calendars) && db.nextId == old(db.nextId))
        && (decision == Pass ==>
              && db.calendars == WithCalendar(old(db.calendars), photographerId, old(db.nextId))
              && r == Success(Filter(db.events, InWindow(db.calendars, photographerId, start, end))))
        && (r.Success? ==> forall i :: 0 <= i < |db.events| ==>
              (db.events[i] in r.value <==> InWindow(db.calendars, photographerId, start, end)(db.events[i])))
    {
      if CalendarAccess(db.photographers, c.UserId, photographerId).Deny? {
        return Failure(Forbidden);
      }
      var _ := EnsureCalendar(photographerId);
      var calendars := db.calendars;
      r := Success(Filter(db.events, InWindow(calendars, photographerId, start, end)));
    }

    /** POST /calendar/photographer/{photographerId}/events: files the event in the
        photographer's calendar under a fresh key. */
    method CreateEvent(c: Caller, photographerId: int, body: CalendarEvent) returns (r: Result<CalendarEvent, Failure>)
      requires db.Valid()
      modifies db`calendars, db`events, db`nextId
      ensures db.Valid()
      ensures var decision := CalendarAccess(db.photographers, c.UserId, photographerId);
        && (decision.Deny? ==> r == Failure(Forbidden) && db.calendars == old(db.calendars)
                                && db.events == old(db.events) && db.nextId == old(db.nextId))
        && (decision == Pass ==>
              && db.calendars == WithCalendar(old(db.calendars), photographerId, old(db.nextId))
              && CalendarOf(db.calendars, photographerId).Some?
              && r.Success?
              && r.value.Id == db.nextId - 1
              && r.value.CalendarId == CalendarOf(db.calendars, photographerId).value.Id
              && r.value == body.(Id := r.value.Id, CalendarId := r.value.CalendarId)
              && db.events == old(db.events) + [r.value])
    {
      if CalendarAccess(db.photographers, c.UserId, photographerId).Deny? {
        r := Failure(Forbidden);
      } else {
        var cal := EnsureCalendar(photographerId);
        var e := FileEvent(cal.Id, body);
        r := Success(e);
      }
    }

    /** Adds an event to a calendar under a fresh key. */
    method FileEvent(calendarId: int, body: CalendarEvent) returns (e: CalendarEvent)
      requires db.Valid()
      modifies db`events, db`nextId
      ensures db.Valid()
      ensures e == body.(Id := old(db.nextId), CalendarId := calendarId)
      ensures db.events == old(db.events) + [e] && db.nextId == old(db.nextId) + 1
    {
      var id := db.NewId();
      e := body.(Id := id, CalendarId := calendarId);
      KeyedAppend(db.events, EventKey, id, e);
      db.events := db.events + [e];
    }

    /** GET /calendar/events/{id} */
    method GetEvent(c: Caller, id: int) returns (r: Result<CalendarEvent, Failure>)
      ensures var found := FindKey(db.events, EventKey, id);
        && (r.Success? <==> EventAccess(db.photographers, db.calendars, c.UserId, found) == Pass)
        && (r.Success? ==> r.value in db.events && r.value.Id == id)
        && (r.Failure? ==> EventAccess(db.photographers, db.calendars, c.UserId, found) == Deny(r.error))
    {
      var found := FindKey(db.events, EventKey, id);
      var decision := EventAccess(db.photographers, db.calendars, c.UserId, found);
      if decision.Deny? {
        return Failure(decision.Failure);
      }
      r := Success(found.value);
    }

    /** PUT /calendar/events/{id}: copies the editable fields and answers the stored event. */
    method UpdateEvent(c: Caller, id: int, body: CalendarEvent) returns (r: Result<CalendarEvent, Failure>)
      requires db.Valid()
      modifies db`events
      ensures db.Valid()
      ensures (r, db.events) == EditEvents(db.photographers, db.calendars, c.UserId, old(db.events), id, body)
    {
      if id != body.Id {
        return Failure(BadRequest);
      }
      var idx := IndexOfKey(db.events, EventKey, id);
      var existing := if idx.Some? then Some(db.events[idx.value]) else None;
      var decision := EventAccess(db.photographers, db.calendars, c.UserId, existing);
      if decision.Deny? {
        return Failure(decision.Failure);
      }
      var i := idx.value;
      var edited := ApplyEventEdit(db.events[i], body);
      KeyedReplace(db.events, EventKey, db.nextId, i, edited);
      db.events := db.events[i := edited];
      r := Success(edited);
    }

    /** DELETE /calendar/events/{id} */
    method DeleteEvent(c: Caller, id: int) returns (r: Outcome)
      requires db.Valid()
      modifies db`events
      ensures db.Valid()
      ensures (r, db.events) == DeleteEvents(db.photographers, db.calendars, c.UserId, old(db.events), id)
    {
      var idx := IndexOfKey(db.events, EventKey, id);
      var found := if idx.Some? then Some(db.events[idx.value]) else None;
      r := EventAccess(db.photographers, db.calendars, c.UserId, found);
      if r.Deny? {
        return;
      }
      var i := idx.value;
      RemoveAtIsRemoveKey(db.events, EventKey, db.nextId, i);
      KeyedRemoveAt(db.events, EventKey, db.nextId, i);
      db.events := db.events[..i] + db.events[i + 1..];
    }
  }

  /** Whoever may create an event in a photographer's calendar may read it back: the event
      filed in that calendar passes the event check for the same caller. */
  lemma CreatedEventIsAccessible(photographers: seq<Photographer>, calendars: seq<Calendar>, next: int,
                                 userId: Option<string>, photographerId: int, e: CalendarEvent)
    requires Keyed(calendars, CalendarKey, next)
    requires CalendarAccess(photographers, userId, photographerId) == Pass
    requires CalendarOf(calendars, photographerId).Some? && e.CalendarId == CalendarOf(calendars, photographerId).value.Id
    ensures EventAccess(photographers, calendars, userId, Some(e)) == Pass
  {
    var i := FirstIndex(calendars, OfPhotographer(photographerId)).value;
    IndexOfKeyUnique(calendars, CalendarKey, next, i);
  }

  /** Repeating an update is the same reply and leaves the table as the first left it. */
  lemma EditEventsIdempotent(photographers: seq<Photographer>, calendars: seq<Calendar>, userId: Option<string>,
                             events: seq<CalendarEvent>, id: int, body: CalendarEvent)
    ensures var (r, after) := EditEvents(photographers, calendars, userId, events, id, body);
      EditEvents(photographers, calendars, userId, after, id, body) == (r, after)
  {
    match IndexOfKey(events, EventKey, id)
    case None =>
    case Some(i) =>
      if EventUpdateAccess(photographers, calendars, userId, id, body, Some(events[i])) == Pass {
        var edited := ApplyEventEdit(events[i], body);
        var after := events[i := edited];
        IndexOfKeyReplace(events, EventKey, id, i, edited);
        assert ApplyEventEdit(edited, body) == edited;
        assert after[i := edited] == after;
      }
  }

  /** An update never moves an event to another calendar, so it never changes who may reach
      any event. */
  lemma EditEventsKeepsAccess(photographers: seq<Photographer>, calendars: seq<Calendar>, userId: Option<string>,
                              events: seq<CalendarEvent>, id: int, body: CalendarEvent, other: Option<string>, key: int)
    ensures var after := EditEvents(photographers, calendars, userId, events, id, body).1;
      EventAccess(photographers, calendars, other, FindKey(after, EventKey, key)) ==
      EventAccess(photographers, calendars, other, FindKey(events, EventKey, key))
  {
    match IndexOfKey(events, EventKey, id)
    case None =>
    case Some(i) =>
      if EventUpdateAccess(photographers, calendars, userId, id, body, Some(events[i])) == Pass {
        var edited := ApplyEventEdit(events[i], body);
        IndexOfKeyReplace(events, EventKey, key, i, edited);
        var before, now := FindKey(events, EventKey, key), FindKey(events[i := edited], EventKey, key);
        assert before.Some? <==> now.Some?;
        if now.Some? {
          assert now.value.CalendarId == before.value.CalendarId;
        }
      }
  }

  /** After a permitted delete the event is gone, exactly one row fewer remains, and every
      other event is still there. */
  lemma DeletedEventIsGone(photographers: seq<Photographer>, calendars: seq<Calendar>, userId: Option<string>,
                           events: seq<CalendarEvent>, next: int, id: int)
    requires Keyed(events, EventKey, next)
    ensures var (r, after) := DeleteEvents(photographers, calendars, userId, events, id);
      && (r != Pass ==> after == events)
      && (r == Pass ==>
            && FindKey(after, EventKey, id).None?
            && |after| == |events| - 1
            && forall i :: 0 <= i < |events| && events[i].Id != id ==> events[i] in after)
  {
    var (r, after) := DeleteEvents(photographers, calendars, userId, events, id);
    if r == Pass {
      var i := IndexOfKey(events, EventKey, id).value;
      RemoveAtIsRemoveKey(events, EventKey, next, i);
    }
  }
}
