/** The records of the studio's relational store, with the fields the controllers and
    services read and write. Where an entity class lacks a field its users rely on
    (Photographer's Phone/Specialization/HourlyRate, PaymentStatus.Completed,
    PhotoSession.Title, ApplicationUser's roles) the field is added; CalendarEvent follows the
    declaration next to Calendar, whose `Type` is an EventType. */
module Entities {
  import opened Base

  /** A DateTime as .NET stores it: ticks of 100 ns since 0001-01-01 (UTC). */
  type Time = nat

  const TicksPerSecond: nat := 10_000_000
  const TicksPerHour: nat := 3600 * TicksPerSecond
  const TicksPerDay: nat := 24 * TicksPerHour

  /** `t.Date`: the calendar day, as a day number. */
  function DayOf(t: Time): nat {
    t / TicksPerDay
  }

  function AddHours(t: Time, h: nat): Time {
    t + h * TicksPerHour
  }

  function AddDays(t: Time, d: nat): Time {
    t + d * TicksPerDay
  }

  /** The three roles seeded into the identity store. */
  const Administrator := "Administrator"
  const PhotographerRole := "Photographer"
  const ClientRole := "Client"

  datatype ApplicationUser = ApplicationUser(
    Id: string,
    UserName: string,
    Email: Option<string>,
    FirstName: Option<string>,
    LastName: Option<string>,
    CreatedAt: Time,
    LastLoginAt: Option<Time>,
    PasswordHash: string,
    Roles: seq<string>)          // role assignments, in the order the store lists them

  datatype Photographer = Photographer(
    Id: int,
    UserId: Option<string>,
    FirstName: string,
    LastName: string,
    Email: string,
    Phone: Option<string>,
    Specialization: string,
    HourlyRate: real,
    Portfolio: Option<string>,
    Bio: Option<string>,
    Website: Option<string>,
    CreatedAt: Time)

  datatype Client = Client(
    Id: int,
    UserId: Option<string>,
    FirstName: string,
    LastName: string,
    Email: string,
    Phone: string,
    Address: string,
    CreatedAt: Time)

  datatype SessionStatus = Scheduled | Pending | Confirmed | Completed | Cancelled

  datatype PhotoSession = PhotoSession(
    Id: int,
    ClientId: int,
    PhotographerId: int,
    Title: string,
    Date: Time,
    Status: SessionStatus,
    Description: string,
    Location: string,
    Price: real,
    CreatedAt: Time,
    UpdatedAt: Option<Time>)

  datatype Photo = Photo(
    Id: int,
    PhotoSessionId: int,
    Title: string,
    FileName: string,
    FilePath: string,
    UploadedAt: Time,
    Description: string,
    IsProcessed: bool,
    IsApproved: bool,
    ApprovedAt: Option<Time>)

  datatype Equipment = Equipment(
    Id: int,
    Name: string,
    Type: string,
    Condition: string,
    SerialNumber: string,
    PurchaseDate: Time,
    PurchasePrice: real,
    IsAvailable: bool,
    LastMaintenanceDate: Option<Time>,
    NextMaintenanceDate: Option<Time>,
    SessionIds: seq<int>)        // the EquipmentPhotoSession join rows of this item

  datatype PaymentStatus = PaymentPending | Paid | PaymentFailed | Refunded | PaymentCompleted

  datatype PaymentMethod = Cash | CreditCard | BankTransfer | PayPal

  datatype Payment = Payment(
    Id: int,
    PhotoSessionId: int,
    Amount: real,
    Status: PaymentStatus,
    Method: PaymentMethod,
    CreatedAt: Time,
    PaidAt: Option<Time>,
    TransactionId: Option<string>,
    Notes: Option<string>)

  datatype Invoice = Invoice(
    Id: int,
    PaymentId: int,
    InvoiceNumber: string,
    IssuedDate: Time,
    DueDate: Time,
    BillingAddress: string,
    TaxRate: real,
    TaxAmount: real,
    TotalAmount: real,
    Notes: Option<string>)

  datatype Calendar = Calendar(
    Id: int,
    PhotographerId: int,
    Name: string,
    Description: Option<string>,
    Color: Option<string>)

  datatype EventType = SessionEvent | Meeting | Other

  datatype CalendarEvent = CalendarEvent(
    Id: int,
    CalendarId: int,
    Title: string,
    Description: string,
    Start: Time,
    End: Time,
    Location: string,
    Type: EventType,
    PhotoSessionId: Option<int>)

  /** Primary keys, as first-class functions for the generic table helpers. */
  function PhotographerKey(x: Photographer): int { x.Id }
  function ClientKey(x: Client): int { x.Id }
  function SessionKey(x: PhotoSession): int { x.Id }
  function PhotoKey(x: Photo): int { x.Id }
  function EquipmentKey(x: Equipment): int { x.Id }
  function PaymentKey(x: Payment): int { x.Id }
  function InvoiceKey(x: Invoice): int { x.Id }
  function CalendarKey(x: Calendar): int { x.Id }
  function EventKey(x: CalendarEvent): int { x.Id }
}
