/** The relational store behind `ApplicationDbContext` and the Identity user manager: one
    table per entity set, each kept in insertion order, with the generic operations the
    controllers perform on a table (find by key, add, replace, remove). */
module Store {
  import opened Base
  import opened Entities

  /** Keys strictly increasing in table order and all below `next`, the next key the store
      hands out: every row was appended under a key the store issued after the previous ones. */
  ghost predicate Keyed<T>(s: seq<T>, key: T -> int, next: int)
    decreases |s|
  {
    |s| == 0 || (Keyed(s[..|s| - 1], key, key(s[|s| - 1])) && key(s[|s| - 1]) < next)
  }

  /** Every key of a keyed table is below its bound. */
  lemma {:induction false} KeyedBelowBound<T>(s: seq<T>, key: T -> int, next: int, i: nat)
    requires Keyed(s, key, next) && i < |s|
    ensures key(s[i]) < next
    decreases |s|
  {
    if i < |s| - 1 {
      var prefix := s[..|s| - 1];
      KeyedBelowBound(prefix, key, key(s[|s| - 1]), i);
      assert prefix[i] == s[i];
    }
  }

  /** In a keyed table a later row has a larger key; so no two rows share one. */
  lemma {:induction false} KeyedIncreasing<T>(s: seq<T>, key: T -> int, next: int, i: nat, j: nat)
    requires Keyed(s, key, next) && i < j < |s|
    ensures key(s[i]) < key(s[j])
    decreases |s|
  {
    var prefix := s[..|s| - 1];
    assert prefix[i] == s[i];
    if j == |s| - 1 {
      KeyedBelowBound(prefix, key, key(s[j]), i);
    } else {
      assert prefix[j] == s[j];
      KeyedIncreasing(prefix, key, key(s[|s| - 1]), i, j);
    }
  }

  function HasKey<T>(key: T -> int, id: int): T -> bool {
    x => key(x) == id
  }

  function LacksKey<T>(key: T -> int, id: int): T -> bool {
    x => key(x) != id
  }

  /** Position of the row `FindAsync(id)` returns. */
  function IndexOfKey<T>(s: seq<T>, key: T -> int, id: int): (r: Option<nat>)
    ensures r.Some? ==> r.value < |s| && key(s[r.value]) == id
    ensures r.None? <==> forall i :: 0 <= i < |s| ==> key(s[i]) != id
  {
    FirstIndex(s, HasKey(key, id))
  }

  /** `FindAsync(id)`: the row with key `id`, or None. */
  function FindKey<T>(s: seq<T>, key: T -> int, id: int): (r: Option<T>)
    ensures r.Some? ==> r.value in s && key(r.value) == id
    ensures r.None? <==> forall i :: 0 <= i < |s| ==> key(s[i]) != id
  {
    match IndexOfKey(s, key, id)
    case None => None
    case Some(i) => Some(s[i])
  }

  /** Overwriting a row with one under the same key leaves every key lookup where it was. */
  lemma IndexOfKeyReplace<T>(s: seq<T>, key: T -> int, id: int, i: nat, x: T)
    requires i < |s| && key(x) == key(s[i])
    ensures IndexOfKey(s[i := x], key, id) == IndexOfKey(s, key, id)
  {
    forall j | 0 <= j < |s|
      ensures HasKey(key, id)(s[i := x][j]) == HasKey(key, id)(s[j])
    {
    }
    FirstIndexAgree(s[i := x], s, HasKey(key, id), HasKey(key, id));
  }

  /** The table after `Remove` of the row with key `id`: every other row, in order. */
  function RemoveKey<T>(s: seq<T>, key: T -> int, id: int): seq<T> {
    Filter(s, LacksKey(key, id))
  }

  /** With distinct keys, the row found by key is the only one carrying it. */
  lemma IndexOfKeyUnique<T>(s: seq<T>, key: T -> int, next: int, i: nat)
    requires Keyed(s, key, next) && i < |s|
    ensures IndexOfKey(s, key, key(s[i])) == Some(i)
  {
    forall j | 0 <= j < i
      ensures !HasKey(key, key(s[i]))(s[j])
    {
      KeyedIncreasing(s, key, next, j, i);
    }
    FirstIndexIs(s, HasKey(key, key(s[i])), i);
  }

  lemma KeyedGrow<T>(s: seq<T>, key: T -> int, next: int, next': int)
    requires Keyed(s, key, next) && next <= next'
    ensures Keyed(s, key, next')
  {
  }

  /** Adding a row under a freshly issued key keeps keys increasing. */
  lemma KeyedAppend<T>(s: seq<T>, key: T -> int, next: int, x: T)
    requires Keyed(s, key, next) && key(x) == next
    ensures Keyed(s + [x], key, next + 1)
  {
    assert (s + [x])[..|s|] == s;
  }

  /** Overwriting a row without touching its key keeps keys increasing. */
  lemma {:induction false} KeyedReplace<T>(s: seq<T>, key: T -> int, next: int, i: nat, x: T)
    requires Keyed(s, key, next) && i < |s| && key(x) == key(s[i])
    ensures Keyed(s[i := x], key, next)
    decreases |s|
  {
    var t := s[i := x];
    var prefix := s[..|s| - 1];
    if i == |s| - 1 {
      assert t[..|t| - 1] == prefix;
    } else {
      assert prefix[i] == s[i];
      KeyedReplace(prefix, key, key(s[|s| - 1]), i, x);
      assert t[..|t| - 1] == prefix[i := x];
    }
  }

  /** Removing the row at a position is removing its key. */
  lemma RemoveAtIsRemoveKey<T>(s: seq<T>, key: T -> int, next: int, i: nat)
    requires Keyed(s, key, next) && i < |s|
    ensures s[..i] + s[i + 1..] == RemoveKey(s, key, key(s[i]))
  {
    var p := LacksKey(key, key(s[i]));
    forall j | 0 <= j < |s| && j != i
      ensures p(s[j])
    {
      if j < i {
        KeyedIncreasing(s, key, next, j, i);
      } else {
        KeyedIncreasing(s, key, next, i, j);
      }
    }
    FilterDropsOne(s, p, i);
  }

  /** Removing a row keeps the remaining keys increasing. */
  lemma {:induction false} KeyedRemoveAt<T>(s: seq<T>, key: T -> int, next: int, i: nat)
    requires Keyed(s, key, next) && i < |s|
    ensures Keyed(s[..i] + s[i + 1..], key, next)
    decreases |s|
  {
    var r := s[..i] + s[i + 1..];
    var prefix := s[..|s| - 1];
    var last := s[|s| - 1];
    if i == |s| - 1 {
      assert r == prefix;
      KeyedGrow(prefix, key, key(last), next);
    } else {
      KeyedRemoveAt(prefix, key, key(last), i);
      assert r[..|r| - 1] == prefix[..i] + prefix[i + 1..];
      assert r[|r| - 1] == last;
    }
  }

  /** No two accounts share a user id: each account's id differs from every earlier one. */
  ghost predicate DistinctUserIds(users: seq<ApplicationUser>)
    decreases |users|
  {
    || |users| == 0
    || (&& DistinctUserIds(users[..|users| - 1])
        && forall i :: 0 <= i < |users| - 1 ==> users[i].Id != users[|users| - 1].Id)
  }

  /** Adding an account under an id no account carries keeps ids distinct. */
  lemma DistinctUserIdsAppend(users: seq<ApplicationUser>, u: ApplicationUser)
    requires DistinctUserIds(users)
    requires forall i :: 0 <= i < |users| ==> users[i].Id != u.Id
    ensures DistinctUserIds(users + [u])
  {
    assert (users + [u])[..|users|] == users;
  }

  /** Overwriting an account without changing its id keeps ids distinct. */
  lemma {:induction false} DistinctUserIdsReplace(users: seq<ApplicationUser>, i: nat, u: ApplicationUser)
    requires DistinctUserIds(users) && i < |users| && u.Id == users[i].Id
    ensures DistinctUserIds(users[i := u])
    decreases |users|
  {
    var t := users[i := u];
    var prefix := users[..|users| - 1];
    if i == |users| - 1 {
      assert t[..|t| - 1] == prefix;
    } else {
      DistinctUserIdsReplace(prefix, i, u);
      assert t[..|t| - 1] == prefix[i := u];
    }
    assert forall k :: 0 <= k < |users| ==> t[k].Id == users[k].Id;
  }

  /** A payment reminder handed to the mail collaborator. */
  datatype Reminder = Reminder(To: string, Amount: real, SessionTitle: string)

  class Store {
    var users: seq<ApplicationUser>
    var photographers: seq<Photographer>
    var clients: seq<Client>
    var sessions: seq<PhotoSession>
    var photos: seq<Photo>
    var equipment: seq<Equipment>
    var payments: seq<Payment>
    var invoices: seq<Invoice>
    var calendars: seq<Calendar>
    var events: seq<CalendarEvent>
    /** The identity value the next inserted row receives. */
    var nextId: int
    /** Reminders sent so far (the mail transport itself is outside the model). */
    ghost var reminders: seq<Reminder>

    /** Every table's keys are distinct and below `next`. */
    ghost predicate KeyedBelow(next: int)
      reads this
    {
      && Keyed(photographers, PhotographerKey, next)
      && Keyed(clients, ClientKey, next)
      && Keyed(sessions, SessionKey, next)
      && Keyed(photos, PhotoKey, next)
      && Keyed(equipment, EquipmentKey, next)
      && Keyed(payments, PaymentKey, next)
      && Keyed(invoices, InvoiceKey, next)
      && Keyed(calendars, CalendarKey, next)
      && Keyed(events, EventKey, next)
    }

    ghost predicate Valid()
      reads this
    {
      && 1 <= nextId
      && DistinctUserIds(users)
      && KeyedBelow(nextId)
    }

    constructor ()
      ensures Valid()
      ensures users == [] && photographers == [] && clients == [] && sessions == []
      ensures photos == [] && equipment == [] && payments == [] && invoices == []
      ensures calendars == [] && events == [] && reminders == []
    {
      users, photographers, clients, sessions, photos := [], [], [], [], [];
      equipment, payments, invoices, calendars, events := [], [], [], [], [];
      nextId := 1;
      reminders := [];
    }

    /** The database's identity generator: a key no row of any table carries yet. */
    method NewId() returns (id: int)
      requires Valid()
      modifies this`nextId
      ensures Valid() && KeyedBelow(id)
      ensures id == old(nextId) && nextId == id + 1
    {
      id := nextId;
      nextId := nextId + 1;
    }
  }
}
