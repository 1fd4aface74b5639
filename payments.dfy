/** PaymentsController: recording payments (with a reminder to the session's client),
    updating a payment's status, listing a session's payments, and issuing an invoice with
    23% VAT and a 30-day payment term. None of the handlers checks who the caller is. */
module Payments {
  import opened Base
  import opened Text
  import opened Entities
  import opened Store
  import opened Access
  import opened Civil

  /** A VAT rate of 23%, and the gross factor 1 + 23%; C# decimals are exact, as reals are. */
  const VatRate: real := 0.23
  const GrossFactor: real := 1.23
  const PaymentTermDays: nat := 30
  const InvoicePrefix := "INV-"

  /** `INV-{issued:yyyyMMdd}-{paymentId}` */
  function InvoiceNumber(issued: Time, paymentId: int): (r: string)
    ensures InvoicePrefix <= r
  {
    InvoicePrefix + DateStamp(DateOf(DayOf(issued))) + "-" + IntToString(paymentId)
  }

  function IsDash(c: char): bool {
    c == '-'
  }

  /** Splits an invoice number into its date stamp and its payment id. */
  function ParseInvoiceNumber(s: string): Option<(string, int)> {
    if |s| < |InvoicePrefix| || s[..|InvoicePrefix|] != InvoicePrefix then None
    else
      var rest := s[|InvoicePrefix|..];
      match FirstIndex(rest, IsDash)
      case None => None
      case Some(k) =>
        match ParseInt(rest[k + 1..])
        case None => None
        case Some(id) => Some((rest[..k], id))
  }

  /** A number built from a dash-free stamp splits back into the stamp and the id. */
  lemma ParseInvoiceNumberOf(stamp: string, paymentId: int)
    requires AllDigits(stamp)
    ensures ParseInvoiceNumber(InvoicePrefix + stamp + "-" + IntToString(paymentId)) == Some((stamp, paymentId))
  {
    var digits := IntToString(paymentId);
    var s := InvoicePrefix + stamp + "-" + digits;
    var rest := s[|InvoicePrefix|..];
    assert s[..|InvoicePrefix|] == InvoicePrefix;
    assert rest == stamp + "-" + digits;
    forall j | 0 <= j < |stamp|
      ensures !IsDash(rest[j])
    {
      assert rest[j] == stamp[j];
    }
    FirstIndexIs(rest, IsDash, |stamp|);
    assert rest[|stamp| + 1..] == digits;
    assert rest[..|stamp|] == stamp;
    IntToStringRoundTrip(paymentId);
  }

  /** An invoice number names the day it was issued on and the payment it bills. */
  lemma InvoiceNumberRoundTrip(issued: Time, paymentId: int)
    ensures ParseInvoiceNumber(InvoiceNumber(issued, paymentId)) == Some((DateStamp(DateOf(DayOf(issued))), paymentId))
  {
    ParseInvoiceNumberOf(DateStamp(DateOf(DayOf(issued))), paymentId);
  }

  /** The invoice's date stamp reads back as the day it was issued on (within .NET's range
      of years). */
  lemma InvoiceStampIsIssueDay(issued: Time)
    requires DateOf(DayOf(issued)).Year <= 9999
    ensures ParseStamp(DateStamp(DateOf(DayOf(issued)))) == Some(DateOf(DayOf(issued)))
    ensures DayNumber(ParseStamp(DateStamp(DateOf(DayOf(issued)))).value) == DayOf(issued)
  {
    StampRoundTrip(DateOf(DayOf(issued)));
  }

  /** `payment.PhotoSession?.Client?.Address ?? ""` */
  function BillingAddressOf(sessions: seq<PhotoSession>, clients: seq<Client>, payment: Payment): string {
    match FindKey(sessions, SessionKey, payment.PhotoSessionId)
    case None => ""
    case Some(s) =>
      match FindKey(clients, ClientKey, s.ClientId)
      case None => ""
      case Some(c) => c.Address
  }

  /** The invoice GenerateInvoice issues for a payment. */
  function NewInvoice(id: int, payment: Payment, address: string, issued: Time): (inv: Invoice)
    ensures inv.Id == id && inv.PaymentId == payment.Id && inv.BillingAddress == address
    ensures inv.TaxRate == VatRate
    ensures inv.TaxAmount == payment.Amount * 23.0 / 100.0
    ensures inv.TotalAmount == payment.Amount + inv.TaxAmount
    ensures inv.IssuedDate == issued && DayOf(inv.DueDate) == DayOf(issued) + PaymentTermDays
    ensures inv.DueDate - inv.IssuedDate == PaymentTermDays * TicksPerDay
    ensures inv.InvoiceNumber == InvoiceNumber(issued, payment.Id)
  {
    Invoice(id, payment.Id, InvoiceNumber(issued, payment.Id), issued, AddDays(issued, PaymentTermDays),
            address, VatRate, payment.Amount * VatRate, payment.Amount * GrossFactor, None)
  }

  /** The reminder CreatePayment sends: only when the payment's session and that session's
      client are on record. */
  function ReminderFor(sessions: seq<PhotoSession>, clients: seq<Client>, payment: Payment): (r: seq<Reminder>)
    ensures |r| <= 1
    ensures |r| == 1 <==>
      (FindKey(sessions, SessionKey, payment.PhotoSessionId).Some? &&
       FindKey(clients, ClientKey, FindKey(sessions, SessionKey, payment.PhotoSessionId).value.ClientId).Some?)
    ensures |r| == 1 ==> r[0].Amount == payment.Amount
  {
    match FindKey(sessions, SessionKey, payment.PhotoSessionId)
    case None => []
    case Some(s) =>
      match FindKey(clients, ClientKey, s.ClientId)
      case None => []
      case Some(c) => [Reminder(c.Email, payment.Amount, s.Title)]
  }

  /** UpdatePaymentStatus as a transition of the payment table. */
  function SetStatus(payments: seq<Payment>, id: int, status: PaymentStatus, now: Time): (Outcome, seq<Payment>) {
    match IndexOfKey(payments, PaymentKey, id)
    case None => (Deny(NotFound("")), payments)
    case Some(i) =>
      var p := payments[i];
      var paid := if status == PaymentCompleted then Some(now) else p.PaidAt;
      (Pass, payments[i := p.(Status := status, PaidAt := paid)])
  }

  function OfSession(sessionId: int): Payment -> bool {
    (p: Payment) => p.PhotoSessionId == sessionId
  }

  /** A status update is NotFound exactly for a missing payment and then changes nothing;
      otherwise it sets the status, stamps PaidAt only for Completed, and touches no other
      field and no other payment. */
  lemma SetStatusEffect(payments: seq<Payment>, id: int, status: PaymentStatus, now: Time)
    ensures var (r, after) := SetStatus(payments, id, status, now);
      && |after| == |payments|
      && (r == Deny(NotFound("")) <==> forall i :: 0 <= i < |payments| ==> payments[i].Id != id)
      && (r != Pass ==> after == payments)
      && (r == Pass ==>
            exists i :: (0 <= i < |payments| && payments[i].Id == id &&
              after[i].Status == status &&
              after[i].PaidAt == (if status == PaymentCompleted then Some(now) else payments[i].PaidAt) &&
              after[i].(Status := payments[i].Status, PaidAt := payments[i].PaidAt) == payments[i] &&
              (forall j :: 0 <= j < |payments| && j != i ==> after[j] == payments[j])))
  {
  }

  /** Repeating a status update is as if only the last one had been made. */
  lemma SetStatusLastWins(payments: seq<Payment>, id: int, status: PaymentStatus, first: Time, second: Time)
    ensures SetStatus(SetStatus(payments, id, status, first).1, id, status, second) == SetStatus(payments, id, status, second)
  {
    var after := SetStatus(payments, id, status, first).1;
    match IndexOfKey(payments, PaymentKey, id)
    case None =>
    case Some(i) =>
      IndexOfKeyReplace(payments, PaymentKey, id, i, after[i]);
      assert after[i := after[i].(Status := status, PaidAt := if status == PaymentCompleted then Some(second) else after[i].PaidAt)]
          == payments[i := payments[i].(Status := status, PaidAt := if status == PaymentCompleted then Some(second) else payments[i].PaidAt)];
  }

  class PaymentsController {
    const db: Store

    constructor (db: Store)
      ensures this.db == db
    {
      this.db := db;
    }

    /** GET /payments: the whole table. */
    method GetPayments() returns (r: seq<Payment>)
      ensures r == db.payments
    {
      r := db.payments;
    }

    /** GET /payments/{id} */
    method GetPayment(id: int) returns (r: Result<Payment, Failure>)
      ensures r.Failure? <==> forall i :: 0 <= i < |db.payments| ==> db.payments[i].Id != id
      ensures r.Failure? ==> r.error == NotFound("")
      ensures r.Success? ==> r.value in db.payments && r.value.Id == id
    {
      var found := FindKey(db.payments, PaymentKey, id);
      if found.None? {
        return Failure(NotFound(""));
      }
      r := Success(found.value);
    }

    /** POST /payments: stamps the creation time, stores the payment under a fresh key, then
        reminds the session's client. */
    method CreatePayment(body: Payment, now: Time) returns (r: Payment)
      requires db.Valid()
      modifies db`payments, db`nextId, db`reminders
      ensures db.Valid()
      ensures r == body.(Id := old(db.nextId), CreatedAt := now)
      ensures db.payments == old(db.payments) + [r] && db.nextId == old(db.nextId) + 1
      ensures db.reminders == old(db.reminders) + ReminderFor(db.sessions, db.clients, r)
    {
      var id := db.NewId();
      r := body.(Id := id, CreatedAt := now);
      KeyedAppend(db.payments, PaymentKey, id, r);
      db.payments := db.payments + [r];
      db.reminders := db.reminders + ReminderFor(db.sessions, db.clients, r);
    }

    /** PUT /payments/{id}/status */
    method UpdatePaymentStatus(id: int, status: PaymentStatus, now: Time) returns (r: Outcome)
      requires db.Valid()
      modifies db`payments
      ensures db.Valid()
      ensures (r, db.payments) == SetStatus(old(db.payments), id, status, now)
    {
      var idx := IndexOfKey(db.payments, PaymentKey, id);
      if idx.None? {
        return Deny(NotFound(""));
      }
      var i := idx.value;
      var p := db.payments[i];
      var updated := p.(Status := status);
      if status == PaymentCompleted {
        updated := updated.(PaidAt := Some(now));
      }
      KeyedReplace(db.payments, PaymentKey, db.nextId, i, updated);
      db.payments := db.payments[i := updated];
      r := Pass;
    }

    /** GET /payments/session/{sessionId}: that session's payments, in table order. */
    method GetSessionPayments(sessionId: int) returns (r: seq<Payment>)
      ensures r == Filter(db.payments, OfSession(sessionId))
      ensures forall i :: 0 <= i < |db.payments| ==> (db.payments[i] in r <==> db.payments[i].PhotoSessionId == sessionId)
      ensures forall p :: p in r ==> p in db.payments
    {
      r := Filter(db.payments, OfSession(sessionId));
    }

    /** POST /payments/{id}/invoice */
    method GenerateInvoice(id: int, now: Time) returns (r: Result<Invoice, Failure>)
      requires db.Valid()
      modifies db`invoices, db`nextId
      ensures db.Valid()
      ensures var found := FindKey(db.payments, PaymentKey, id);
        && (found.None? ==> r == Failure(NotFound("")) && db.invoices == old(db.invoices) && db.nextId == old(db.nextId))
        && (found.Some? ==>
              && r == Success(NewInvoice(old(db.nextId), found.value, BillingAddressOf(db.sessions, db.clients, found.value), now))
              && db.invoices == old(db.invoices) + [r.value]
              && db.nextId == old(db.nextId) + 1)
    {
      var found := FindKey(db.payments, PaymentKey, id);
      if found.None? {
        return Failure(NotFound(""));
      }
      var invoice := AddInvoice(found.value, BillingAddressOf(db.sessions, db.clients, found.value), now);
      r := Success(invoice);
    }

    /** Stores the invoice for a payment under a fresh key. */
    method AddInvoice(payment: Payment, address: string, now: Time) returns (invoice: Invoice)
      requires db.Valid()
      modifies db`invoices, db`nextId
      ensures db.Valid()
      ensures invoice == NewInvoice(old(db.nextId), payment, address, now)
      ensures db.invoices == old(db.invoices) + [invoice] && db.nextId == old(db.nextId) + 1
    {
      var invoiceId := db.NewId();
      invoice := NewInvoice(invoiceId, payment, address, now);
      KeyedAppend(db.invoices, InvoiceKey, invoiceId, invoice);
      db.invoices := db.invoices + [invoice];
    }

    /** GET /payments/invoice/{id} */
    method GetInvoice(id: int) returns (r: Result<Invoice, Failure>)
      ensures r.Failure? <==> forall i :: 0 <= i < |db.invoices| ==> db.invoices[i].Id != id
      ensures r.Failure? ==> r.error == NotFound("")
      ensures r.Success? ==> r.value in db.invoices && r.value.Id == id
    {
      var found := FindKey(db.invoices, InvoiceKey, id);
      if found.None? {
        return Failure(NotFound(""));
      }
      r := Success(found.value);
    }
  }
}
