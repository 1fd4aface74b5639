/** EquipmentController: the studio's equipment register, and which items are free on a
    given day. An item is booked on a day when one of the sessions it is linked to (the
    EquipmentPhotoSession join rows) takes place that day. */
module EquipmentRegister {
  import opened Base
  import opened Entities
  import opened Store
  import opened Access

  /** `e.PhotoSessions.Any(s => s.Date.Date == day)`: a linked session on that day. */
  predicate BookedOn(sessions: seq<PhotoSession>, e: Equipment, day: nat) {
    exists s :: s in sessions && s.Id in e.SessionIds && DayOf(s.Date) == day
  }

  function FreeOn(sessions: seq<PhotoSession>, day: nat): Equipment -> bool {
    (e: Equipment) => !BookedOn(sessions, e, day)
  }

  /** UpdateEquipment's overwrite: every column from the request; the links to sessions are
      not columns of the row and stay as stored. */
  function ReplaceEquipment(existing: Equipment, body: Equipment): (e: Equipment)
    ensures e.SessionIds == existing.SessionIds
    ensures e.(SessionIds := body.SessionIds) == body
  {
    body.(SessionIds := existing.SessionIds)
  }

  /** UpdateEquipment as a transition of the equipment table. */
  function UpdateItems(equipment: seq<Equipment>, id: int, body: Equipment): (Outcome, seq<Equipment>) {
    if id != body.Id then (Deny(BadRequest), equipment)
    else
      match IndexOfKey(equipment, EquipmentKey, id)
      case None => (Deny(NotFound("")), equipment)
      case Some(i) => (Pass, equipment[i := ReplaceEquipment(equipment[i], body)])
  }

  /** DeleteEquipment as a transition of the equipment table. */
  function DeleteItems(equipment: seq<Equipment>, id: int): (Outcome, seq<Equipment>) {
    if FindKey(equipment, EquipmentKey, id).None? then (Deny(NotFound("")), equipment)
    else (Pass, RemoveKey(equipment, EquipmentKey, id))
  }

  class EquipmentController {
    const db: Store

    constructor (db: Store)
      ensures this.db == db
    {
      this.db := db;
    }

    /** GET /equipment */
    method GetEquipment() returns (r: seq<Equipment>)
      ensures r == db.equipment
    {
      r := db.equipment;
    }

    /** GET /equipment/{id} */
    method GetItem(id: int) returns (r: Result<Equipment, Failure>)
      ensures r.Failure? <==> forall i :: 0 <= i < |db.equipment| ==> db.equipment[i].Id != id
      ensures r.Failure? ==> r.error == NotFound("")
      ensures r.Success? ==> r.value in db.equipment && r.value.Id == id
    {
      var found := FindKey(db.equipment, EquipmentKey, id);
      if found.None? {
        return Failure(NotFound(""));
      }
      r := Success(found.value);
    }

    /** POST /equipment: stores the item under a fresh key, not yet linked to any session. */
    method CreateEquipment(body: Equipment) returns (r: Equipment)
      requires db.Valid()
      modifies db`equipment, db`nextId
      ensures db.Valid()
      ensures r == body.(Id := old(db.nextId), SessionIds := [])
      ensures db.equipment == old(db.equipment) + [r] && db.nextId == old(db.nextId) + 1
    {
      var id := db.NewId();
      r := body.(Id := id, SessionIds := []);
      KeyedAppend(db.equipment, EquipmentKey, id, r);
      db.equipment := db.equipment + [r];
    }

    /** PUT /equipment/{id} */
    method UpdateEquipment(id: int, body: Equipment) returns (r: Outcome)
      requires db.Valid()
      modifies db`equipment
      ensures db.Valid()
      ensures (r, db.equipment) == UpdateItems(old(db.equipment), id, body)
    {
      if id != body.Id {
        return Deny(BadRequest);
      }
      var idx := IndexOfKey(db.equipment, EquipmentKey, id);
      if idx.None? {
        return Deny(NotFound(""));
      }
      var i := idx.value;
      var replaced := ReplaceEquipment(db.equipment[i], body);
      KeyedReplace(db.equipment, EquipmentKey, db.nextId, i, replaced);
      db.equipment := db.equipment[i := replaced];
      r := Pass;
    }

    /** DELETE /equipment/{id} */
    method DeleteEquipment(id: int) returns (r: Outcome)
      requires db.Valid()
      modifies db`equipment
      ensures db.Valid()
      ensures (r, db.equipment) == DeleteItems(old(db.equipment), id)
    {
      var idx := IndexOfKey(db.equipment, EquipmentKey, id);
      if idx.None? {
        return Deny(NotFound(""));
      }
      var i := idx.value;
      RemoveAtIsRemoveKey(db.equipment, EquipmentKey, db.nextId, i);
      KeyedRemoveAt(db.equipment, EquipmentKey, db.nextId, i);
      db.equipment := db.equipment[..i] + db.equipment[i + 1..];
      r := Pass;
    }

    /** GET /equipment/available?date=: the items no linked session occupies on that day. */
    method GetAvailableEquipment(date: Time) returns (r: seq<Equipment>)
      ensures r == Filter(db.equipment, FreeOn(db.sessions, DayOf(date)))
      ensures forall i :: 0 <= i < |db.equipment| ==>
        (db.equipment[i] in r <==> !BookedOn(db.sessions, db.equipment[i], DayOf(date)))
      ensures forall e :: e in r ==> e in db.equipment
    {
      var sessions := db.sessions;
      r := Filter(db.equipment, FreeOn(sessions, DayOf(date)));
    }
  }

  /** An item linked to a session is never offered as free on that session's day, even when
      its own IsAvailable flag says it is. */
  lemma LinkedItemIsBusyThatDay(sessions: seq<PhotoSession>, equipment: seq<Equipment>, e: Equipment, s: PhotoSession)
    requires s in sessions && s.Id in e.SessionIds
    ensures e !in Filter(equipment, FreeOn(sessions, DayOf(s.Date)))
  {
    assert BookedOn(sessions, e, DayOf(s.Date));
  }

  /** An item is free on every day none of its linked sessions falls on. */
  lemma UnlinkedDayIsFree(sessions: seq<PhotoSession>, e: Equipment, day: nat)
    requires forall k :: 0 <= k < |sessions| && sessions[k].Id in e.SessionIds ==> DayOf(sessions[k].Date) != day
    ensures FreeOn(sessions, day)(e)
  {
    forall s | s in sessions && s.Id in e.SessionIds
      ensures DayOf(s.Date) != day
    {
      var k :| 0 <= k < |sessions| && sessions[k] == s;
    }
  }

  /** An update is BadRequest exactly on a key mismatch, NotFound exactly for a missing item,
      and otherwise overwrites that one row's columns and nothing else. */
  lemma UpdateItemsEffect(equipment: seq<Equipment>, id: int, body: Equipment)
    ensures var (r, after) := UpdateItems(equipment, id, body);
      && (r == Deny(BadRequest) <==> id != body.Id)
      && (r == Deny(NotFound("")) <==> id == body.Id && forall i :: 0 <= i < |equipment| ==> equipment[i].Id != id)
      && (r != Pass ==> after == equipment)
      && (r == Pass ==>
            && |after| == |equipment|
            && exists i :: (0 <= i < |equipment| && equipment[i].Id == id &&
                 after[i] == body.(SessionIds := equipment[i].SessionIds) &&
                 forall j :: 0 <= j < |equipment| && j != i ==> after[j] == equipment[j]))
  {
  }

  /** Repeating an update is the same outcome and leaves the table as the first left it. */
  lemma UpdateItemsIdempotent(equipment: seq<Equipment>, id: int, body: Equipment)
    ensures var (r, after) := UpdateItems(equipment, id, body);
      UpdateItems(after, id, body) == (r, after)
  {
    if id == body.Id {
      match IndexOfKey(equipment, EquipmentKey, id)
      case None =>
      case Some(i) =>
        var after := equipment[i := ReplaceEquipment(equipment[i], body)];
        IndexOfKeyReplace(equipment, EquipmentKey, id, i, after[i]);
        assert after[i := ReplaceEquipment(after[i], body)] == after;
    }
  }

  /** After a delete the item is gone, exactly one row fewer remains, and every other item is
      still there. */
  lemma DeletedItemIsGone(equipment: seq<Equipment>, next: int, id: int)
    requires Keyed(equipment, EquipmentKey, next)
    ensures var (r, after) := DeleteItems(equipment, id);
      && (r == Deny(NotFound("")) <==> forall i :: 0 <= i < |equipment| ==> equipment[i].Id != id)
      && (r == Pass ==>
            && FindKey(after, EquipmentKey, id).None?
            && |after| == |equipment| - 1
            && forall i :: 0 <= i < |equipment| && equipment[i].Id != id ==> equipment[i] in after)
  {
    var (r, after) := DeleteItems(equipment, id);
    if r == Pass {
      var i := IndexOfKey(equipment, EquipmentKey, id).value;
      RemoveAtIsRemoveKey(equipment, EquipmentKey, next, i);
    }
  }
}
