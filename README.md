# PhotoStudioManager core, modelled in Dafny

PhotoStudioManager is the back end of a photo studio. Photographers and clients book photo
sessions. Photos are uploaded to a session and approved by the session's client. Payments
are recorded, with a reminder e-mail, and invoiced with 23% VAT. Photographers keep a
calendar of events, and the studio keeps an equipment register. Users log in and get a JSON
Web Token (RFC 7519) naming their identity and their roles.

This project models the handlers of the six controllers and services that make up the core:

- SessionsController, CalendarController, PhotographersController, PaymentsController and
  EquipmentController;
- AuthService and JwtService.

Each handler is modelled as:

- the ownership decision it takes, as a pure function in module `Access`;
- then the change it makes to the relational store.

The store is one `Store.Store` object holding every table as a sequence in insertion order:

- LINQ `FirstOrDefault` is the first match;
- `Where` is an order-preserving filter;
- the database's identity generator is a shared counter, `nextId`.

`Store.Valid()` is the invariant every handler keeps: user ids are distinct, and every
table's keys are distinct and below `nextId`.

Handlers that edit or delete a row are specified by a transition function of the table,
named `EditSessions`, `SetStatus`, `UpdateItems`, `EditEvents`, `EditProfiles` and so on.
The lemmas about those functions state the promised properties:

- repeating an update changes nothing more;
- an edit never changes who may reach any record;
- a delete removes exactly the named row;
- a new record is found by the endpoints that read it back.

Module layout:

| file | contents |
|---|---|
| `base.dfy` | `Option` and `Result`, first match (`FirstIndex`, `FirstWhere`), and `Filter` |
| `text.dfy` | digit strings, `int.ToString()` and its parse, ASCII upper-casing |
| `civil.dfy` | the proleptic Gregorian calendar behind `DateTime`, and the `yyyyMMdd` format |
| `entities.dfy` | the records, ticks-based time, the role names |
| `store.dfy` | keyed tables and the `Store` class |
| `access.dfy` | every ownership decision, and the single policy `Guard` they are compared with |
| `sessions.dfy`, `calendar.dfy`, `photographers.dfy`, `payments.dfy`, `equipment.dfy` | one controller each |
| `jwt.dfy` | JwtService.GenerateToken as a claims record, and what a handler reads back from it |
| `auth.dfy` | AuthService |

The identity library (UserManager, SignInManager) is a parameter of
`Auth.AuthService`: the password check, the account creation, the password change and the
hash are uninterpreted functions. Clock readings (`now`), the token id (`jti`), a newly
created user's id and an uploaded file's name are method parameters.

A caller whose role is neither Photographer nor Client passes the checks of GetSession,
UpdateSession, DeleteSession and UploadPhoto, and GetSessions lists every session for them.
`Access.ItemEndpointsFollowGuard` states this.

## Model

| member | source | states |
|---|---|---|
| Access.CallerScope | PhotoStudioManager.API/Controllers/SessionsController.cs:27-63 | Unauthorized for a missing or empty user id. A Photographer is scoped to the first profile linked to the caller, and gets NotFound("Photographer profile not found") exactly when there is none. Otherwise a Client is scoped the same way to the client profile. A caller with neither role is not scoped. |
| Access.SessionAccess | PhotoStudioManager.API/Controllers/SessionsController.cs:86-125 | Unauthorized first, then NotFound for a missing session, then the role branch. A Photographer passes exactly when their linked profile is the session's photographer. Otherwise a Client passes exactly when their profile is the session's client. A caller with neither role passes. Every refusal is one of Unauthorized, NotFound or Forbid. |
| Access.SessionUpdateAccess | PhotoStudioManager.API/Controllers/SessionsController.cs:213-255 | BadRequest exactly when the route id differs from the body id, before the caller is identified; otherwise the same decision as GetSession. |
| Access.PhotoApprovalAccess | PhotoStudioManager.API/Controllers/SessionsController.cs:394-420 | Unauthorized, then Forbid for a non-Client, then NotFound for a photo missing under that session. Passes exactly when the caller's client profile exists and owns the photo's session. |
| Access.CalendarAccess | PhotoStudioManager.API/Controllers/CalendarController.cs:26-34 | Passes exactly when some photographer has the requested id and the caller's user id; otherwise Forbid, with no Unauthorized branch. |
| Access.EventAccess | PhotoStudioManager.API/Controllers/CalendarController.cs:134-153 | NotFound for a missing event; otherwise passes exactly when the caller owns the photographer of the event's calendar, and is Forbid otherwise. |
| Access.EventUpdateAccess | PhotoStudioManager.API/Controllers/CalendarController.cs:161-183 | BadRequest exactly on an id mismatch, checked first; otherwise as EventAccess. |
| Access.ProfileCreateAccess | PhotoStudioManager.API/Controllers/PhotographersController.cs:103-107 | Passes exactly when the token carries a user id (even an empty one); otherwise Unauthorized. |
| Access.ProfileOwnerAccess | PhotoStudioManager.API/Controllers/PhotographersController.cs:169-180 | NotFound for a missing profile; passes exactly when the profile's user id equals the caller's (two absent ids are equal); Forbid otherwise. |
| Access.ProfileUpdateAccess | PhotoStudioManager.API/Controllers/PhotographersController.cs:121-137 | BadRequest exactly on an id mismatch, then NotFound, then the owner check. |
| Access.ItemEndpointsFollowGuard | PhotoStudioManager.API/Controllers/SessionsController.cs:104-125 | The item check passes exactly for the owner and for a caller with no role. It is Forbid exactly for a non-owner and for a caller whose role has no profile. |
| Access.ListAgreesWithItems | PhotoStudioManager.API/Controllers/SessionsController.cs:43-63 | The session list fails exactly when the caller's role has no profile, and that same caller gets Forbid on every item. Otherwise a session is listed exactly when its item check passes. |
| Access.AdministratorIsNotABypass | PhotoStudioManager.API/Controllers/SessionsController.cs:34-35 | Adding the seeded Administrator role to a caller changes no scoping, session or approval decision. |
| Access.UnlinkedProfileMatchesMissingCaller | PhotoStudioManager.API/Controllers/CalendarController.cs:26-29 | A profile linked to no user passes the calendar and profile-owner checks for a token without a user id, because the query compares nullable ids. |
| Sessions.AssignToCaller | PhotoStudioManager.API/Controllers/SessionsController.cs:170-189 | The booked session lies in the caller's scope. It equals the request apart from the owner the caller speaks for. |
| Sessions.ApplySessionEdit | PhotoStudioManager.API/Controllers/SessionsController.cs:257-261 | Date, status, description, location and price come from the request. The key, both owners, the title and the timestamps stay as stored. |
| Sessions.NewPhoto | PhotoStudioManager.API/Controllers/SessionsController.cs:367-374 | The photo has the session's id and the upload time. Its title and file name are the uploaded name, and its path is `/uploads/` followed by that name. It starts unapproved and unprocessed. |
| Sessions.EditSessions | PhotoStudioManager.API/Controllers/SessionsController.cs:211-280 | UpdateSession's transition: SessionUpdateAccess on the stored row (None when the id is missing). Only when it passes, that row becomes ApplySessionEdit of the request; otherwise the table is unchanged. |
| Sessions.DeleteSessions | PhotoStudioManager.API/Controllers/SessionsController.cs:283-325 | DeleteSession's transition: SessionAccess on the row with that id. Only when it passes, that row is removed by key; otherwise the table is unchanged. |
| Sessions.ApprovePhotos | PhotoStudioManager.API/Controllers/SessionsController.cs:392-426 | ApprovePhoto as intended: PhotoApprovalAccess on the first photo with that session and photo id. Only when it passes, that photo's IsApproved is set; otherwise the table is unchanged. |
| Sessions.ApprovePhotosAsWritten | PhotoStudioManager.API/Controllers/SessionsController.cs:394-417 | ApprovePhoto as written: Unauthorized, then Forbid for a non-Client, then NotFound for a missing photo, then Forbid for a caller without a client profile. Otherwise the read of the unloaded `photo.PhotoSession` throws. The table never changes. |
| Sessions.SessionsController.GetSessions | PhotoStudioManager.API/Controllers/SessionsController.cs:25-81 | The scoping failure, or exactly the sessions in the caller's scope, in table order. |
| Sessions.SessionsController.GetSession | PhotoStudioManager.API/Controllers/SessionsController.cs:84-156 | The stored session with that id exactly when SessionAccess passes; otherwise its refusal. |
| Sessions.SessionsController.CreateSession | PhotoStudioManager.API/Controllers/SessionsController.cs:159-208 | The scoping failure with nothing stored. Otherwise the request with the caller's own owner id and a fresh key is appended, and it lies in the caller's scope. |
| Sessions.SessionsController.UpdateSession | PhotoStudioManager.API/Controllers/SessionsController.cs:211-280 | The decision, and the session table after it, as given by EditSessions. |
| Sessions.SessionsController.DeleteSession | PhotoStudioManager.API/Controllers/SessionsController.cs:283-325 | The decision, and the table after it, as given by DeleteSessions. |
| Sessions.SessionsController.UploadPhoto | PhotoStudioManager.API/Controllers/SessionsController.cs:328-389 | Succeeds exactly when SessionAccess passes, and then appends NewPhoto under a fresh key. Otherwise it refuses and leaves the photos unchanged. |
| Sessions.SessionsController.ApprovePhoto | PhotoStudioManager.API/Controllers/SessionsController.cs:392-426 | The decision, and the photo table after it, as given by ApprovePhotos. |
| Sessions.SessionAccessReadsOwners | PhotoStudioManager.API/Controllers/SessionsController.cs:104-125 | The session decision depends only on the session's two owner ids. |
| Sessions.EditSessionsIdempotent | PhotoStudioManager.API/Controllers/SessionsController.cs:257-265 | Repeating an update gives the same decision and leaves the table as the first update left it. |
| Sessions.EditSessionsKeepsAccess | PhotoStudioManager.API/Controllers/SessionsController.cs:257-261 | After an update, every caller gets the same decision on every session as before. |
| Sessions.DeletedSessionIsGone | PhotoStudioManager.API/Controllers/SessionsController.cs:321-322 | After a permitted delete the session is gone and the table is one row shorter. Every other session remains. |
| Sessions.ApprovalIdempotent | PhotoStudioManager.API/Controllers/SessionsController.cs:422-423 | Approving again gives the same decision and changes nothing more. |
| Sessions.AsWrittenApprovalNeverApproves | PhotoStudioManager.API/Controllers/SessionsController.cs:410-422 | As written, the approval never passes and never changes a photo. Wherever the intended decision passes, the handler throws on the unloaded `photo.PhotoSession`; on every other path the two agree. |
| Sessions.ApprovalCrashExample | PhotoStudioManager.API/Controllers/SessionsController.cs:410-422 | A client whose profile owns the session approves one of its photos: the intended decision passes, and the handler as written throws with nothing changed. |
| Sessions.ApprovalMarksOnePhoto | PhotoStudioManager.API/Controllers/SessionsController.cs:407-423 | A permitted approval sets IsApproved on exactly the requested photo of that session. No other photo and no other field changes; a refusal changes nothing. |
| Sessions.UploadedPhotoIsFound | PhotoStudioManager.API/Controllers/SessionsController.cs:367-377 | The photo an upload stores is the one the approval lookup finds under that session and key. |
| Jwt.Setting | PhotoStudioManager.Infrastructure/Services/JwtService.cs:44-46 | A configuration key reads as its value when present and as null otherwise. |
| Jwt.RoleClaims | PhotoStudioManager.Infrastructure/Services/JwtService.cs:39-42 | One role claim per role, in order. |
| Jwt.GenerateToken | PhotoStudioManager.Infrastructure/Services/JwtService.cs:20-52 | ArgumentNull("user") for a missing user, then InvalidOperation("JWT:Secret not configured"). The claims are subject, e-mail (empty when absent) and token id, followed by one claim per role. Issuer and audience are the configured ones, the expiry is 24 hours later, and the token is signed with the configured secret. |
| Jwt.CallerOf | PhotoStudioManager.Infrastructure/Services/JwtService.cs:31-41 | The caller a handler sees for a token: the user id is the first `sub` claim's value (mapped to NameIdentifier), and the roles are the Role claims in order. |
| Jwt.RoleValuesOfRoleClaims | PhotoStudioManager.Infrastructure/Services/JwtService.cs:41 | Reading the role claims back gives exactly the role list. |
| Jwt.RoleValuesSkipsOthers | PhotoStudioManager.Infrastructure/Services/JwtService.cs:31-36 | The subject, e-mail and token-id claims contribute no role. |
| Jwt.TokenIdentifiesUser | PhotoStudioManager.Infrastructure/Services/JwtService.cs:31-42 | A handler reading the token sees exactly the user's id and the roles it was issued with; no roles when the list was not loaded. |
| Auth.UserByEmail | PhotoStudioManager.Infrastructure/Services/AuthService.cs:35 | The first account whose e-mail matches ignoring letter case, or none exactly when no account matches. |
| Auth.UserById | PhotoStudioManager.Infrastructure/Services/AuthService.cs:130 | The first account with that id, or none exactly when no account has it. |
| Auth.DefaultProfile | PhotoStudioManager.Infrastructure/Services/AuthService.cs:97-107 | The profile is linked to the new user, with specialization "General Photography", an hourly rate of 100 and an empty portfolio. |
| Auth.Reply | PhotoStudioManager.Infrastructure/Services/AuthService.cs:112-125 | A reply carries the issued token exactly when GenerateToken succeeded; otherwise it carries GenerateToken's exception. |
| Auth.AuthService.Login | PhotoStudioManager.Infrastructure/Services/AuthService.cs:33-68 | "Invalid email or password" for an unknown e-mail or a rejected password, with nothing changed. Otherwise the token carries the stored roles, and the reported role is the first role or "Photographer". The login time is stored only when the token was produced. |
| Auth.AuthService.Register | PhotoStudioManager.Infrastructure/Services/AuthService.cs:70-126 | A duplicate e-mail, or an account the identity library refuses (its errors joined by ", "), changes nothing. Otherwise it adds the account with the single role Photographer and a default profile under a fresh key. The reply is built from a token with that role, and the rows stay even when the token fails. |
| Auth.ChangePasswordOutcome | PhotoStudioManager.Infrastructure/Services/AuthService.cs:128-158 | The password change's transition. "User not found" for a missing id. When the identity library refuses, its errors are joined after the failure prefix. Both leave the table unchanged. Otherwise the row gets the new hash, and the reply is built from GenerateToken for the updated account, reporting its first role, or Photographer when it has none. |
| Auth.AuthService.ChangePassword | PhotoStudioManager.Infrastructure/Services/AuthService.cs:128-158 | As written: the numeric id's decimal rendering is looked up among the string user ids; otherwise as ChangePasswordFor. |
| Auth.AuthService.ChangePasswordFor | PhotoStudioManager.Infrastructure/Services/AuthService.cs:128-158 | "User not found"; or "Failed to change password: " followed by the errors, with nothing changed. Otherwise the new password's hash is stored and a token with the stored roles is issued. |
| Auth.AuthService.ResetPassword | PhotoStudioManager.Infrastructure/Services/AuthService.cs:160-188 | "User not found" exactly for an unknown e-mail. Otherwise it reports the account with its first role and no token, and changes nothing. |
| Auth.RegisteredAccountIsFound | PhotoStudioManager.Infrastructure/Services/AuthService.cs:72-87 | After a registration, a lookup with the registered e-mail in any letter case finds the new account. |
| Auth.RegistrationTokenScopesToNewProfile | PhotoStudioManager.Infrastructure/Services/AuthService.cs:93-112 | The token issued at registration scopes the bearer's sessions to the profile created with the account. |
| Auth.NumericLookupNeedsDecimalId | PhotoStudioManager.Infrastructure/Services/AuthService.cs:130 | The as-written password change can only reach an account whose id parses as that number. |
| Auth.GuidAccountUnreachableByNumber | PhotoStudioManager.Infrastructure/Services/AuthService.cs:128-134 | For an account with a GUID id, the as-written change answers "User not found" for every number, though the lookup by the id itself finds it. |
| Text.IntToStringRoundTrip | PhotoStudioManager.API/Controllers/PaymentsController.cs:114 | The decimal rendering of an integer parses back to it. |
| Civil.DateOf | PhotoStudioManager.API/Controllers/PaymentsController.cs:114 | The calendar date of a day number is a valid date with that day number. |
| Civil.DateOfDayNumber | PhotoStudioManager.API/Controllers/PaymentsController.cs:114 | Day numbers and valid dates correspond one to one. |
| Civil.DateStamp | PhotoStudioManager.API/Controllers/PaymentsController.cs:114 | `yyyyMMdd` is all digits, and eight of them up to year 9999. |
| Civil.StampRoundTrip | PhotoStudioManager.API/Controllers/PaymentsController.cs:114 | A `yyyyMMdd` rendering reads back as the date. |
| Payments.InvoiceNumber | PhotoStudioManager.API/Controllers/PaymentsController.cs:114 | "INV-", then the issue day as `yyyyMMdd`, then "-" and the payment id in decimal. The result starts with the prefix. |
| Payments.ParseInvoiceNumberOf | PhotoStudioManager.API/Controllers/PaymentsController.cs:114 | For any all-digit stamp, the text "INV-" + stamp + "-" + the payment id splits back into that stamp and that id. |
| Payments.InvoiceNumberRoundTrip | PhotoStudioManager.API/Controllers/PaymentsController.cs:114 | An invoice number splits back into the issue day's stamp and the payment id. |
| Payments.InvoiceStampIsIssueDay | PhotoStudioManager.API/Controllers/PaymentsController.cs:114-115 | The invoice number's stamp reads back as the day the invoice was issued. |
| Payments.NewInvoice | PhotoStudioManager.API/Controllers/PaymentsController.cs:111-121 | The invoice bills that payment. The VAT rate is 0.23 and the tax is 23% of the amount. The total is the amount plus the tax. It is due 30 days after the issue date, at the billing address given. |
| Payments.ReminderFor | PhotoStudioManager.API/Controllers/PaymentsController.cs:54-64 | One reminder, for the payment's amount, exactly when the payment's session and that session's client exist; otherwise none. |
| Payments.BillingAddressOf | PhotoStudioManager.API/Controllers/PaymentsController.cs:117 | The address of the client of the payment's session. It is "" when the session or its client is missing, as the null-conditional chain with `?? ""` gives. |
| Payments.SetStatus | PhotoStudioManager.API/Controllers/PaymentsController.cs:70-88 | UpdatePaymentStatus's transition: NotFound for a missing payment, with the table unchanged. Otherwise that row gets the new status, and PaidAt becomes the clock reading only for Completed. |
| Payments.SetStatusEffect | PhotoStudioManager.API/Controllers/PaymentsController.cs:70-88 | NotFound exactly for a missing payment, with nothing changed. Otherwise that payment's status is set, and PaidAt is stamped only for Completed. No other field and no other payment changes. |
| Payments.SetStatusLastWins | PhotoStudioManager.API/Controllers/PaymentsController.cs:79-83 | Two equal status updates leave the table as the second one alone would. |
| Payments.PaymentsController.GetPayments | PhotoStudioManager.API/Controllers/PaymentsController.cs:25-30 | Every payment, in table order. |
| Payments.PaymentsController.GetPayment | PhotoStudioManager.API/Controllers/PaymentsController.cs:33-45 | The stored payment with that id, or NotFound exactly when there is none. |
| Payments.PaymentsController.CreatePayment | PhotoStudioManager.API/Controllers/PaymentsController.cs:48-67 | The request is stored with the creation time and a fresh key. The reminder of ReminderFor is sent. |
| Payments.PaymentsController.UpdatePaymentStatus | PhotoStudioManager.API/Controllers/PaymentsController.cs:70-88 | The outcome, and the payment table after it, as given by SetStatus. |
| Payments.PaymentsController.GetSessionPayments | PhotoStudioManager.API/Controllers/PaymentsController.cs:91-96 | Exactly the payments of that session, in table order. |
| Payments.PaymentsController.GenerateInvoice | PhotoStudioManager.API/Controllers/PaymentsController.cs:99-127 | NotFound with nothing stored for a missing payment. Otherwise it stores and returns NewInvoice under a fresh key, billed to the address of the session's client, or to "" when the session or its client is missing. |
| Payments.PaymentsController.GetInvoice | PhotoStudioManager.API/Controllers/PaymentsController.cs:130-142 | The stored invoice with that id, or NotFound exactly when there is none. |
| EquipmentRegister.ReplaceEquipment | PhotoStudioManager.API/Controllers/EquipmentController.cs:61 | Every column comes from the request; the item's links to sessions stay as stored. |
| EquipmentRegister.EquipmentController.GetEquipment | PhotoStudioManager.API/Controllers/EquipmentController.cs:22-27 | Every item, in table order. |
| EquipmentRegister.EquipmentController.GetItem | PhotoStudioManager.API/Controllers/EquipmentController.cs:30-42 | The stored item with that id, or NotFound exactly when there is none. |
| EquipmentRegister.EquipmentController.CreateEquipment | PhotoStudioManager.API/Controllers/EquipmentController.cs:45-51 | The request is stored under a fresh key with no session links. |
| EquipmentRegister.EquipmentController.UpdateEquipment | PhotoStudioManager.API/Controllers/EquipmentController.cs:54-80 | The outcome, and the table after it, as given by UpdateItems. |
| EquipmentRegister.EquipmentController.DeleteEquipment | PhotoStudioManager.API/Controllers/EquipmentController.cs:83-95 | The outcome, and the table after it, as given by DeleteItems. |
| EquipmentRegister.EquipmentController.GetAvailableEquipment | PhotoStudioManager.API/Controllers/EquipmentController.cs:98-110 | Exactly the items none of whose linked sessions falls on the requested day, in table order. |
| EquipmentRegister.LinkedItemIsBusyThatDay | PhotoStudioManager.API/Controllers/EquipmentController.cs:104-107 | An item linked to a session is never offered on that session's day, whatever its IsAvailable flag says. |
| EquipmentRegister.UnlinkedDayIsFree | PhotoStudioManager.API/Controllers/EquipmentController.cs:104-107 | An item is free on every day none of its linked sessions falls on. |
| EquipmentRegister.UpdateItems | PhotoStudioManager.API/Controllers/EquipmentController.cs:54-80 | UpdateEquipment's transition: BadRequest on an id mismatch, then NotFound for a missing key (the concurrency catch). Otherwise that row is replaced by the request with its session links kept. |
| EquipmentRegister.DeleteItems | PhotoStudioManager.API/Controllers/EquipmentController.cs:83-95 | DeleteEquipment's transition: NotFound for a missing key, with the table unchanged; otherwise that row is removed by key. |
| EquipmentRegister.UpdateItemsEffect | PhotoStudioManager.API/Controllers/EquipmentController.cs:54-80 | BadRequest exactly on an id mismatch, and NotFound exactly for a missing item; neither changes anything. Otherwise that one row becomes the request with its session links kept. |
| EquipmentRegister.UpdateItemsIdempotent | PhotoStudioManager.API/Controllers/EquipmentController.cs:56-65 | Repeating an update gives the same outcome and changes nothing more. |
| EquipmentRegister.DeletedItemIsGone | PhotoStudioManager.API/Controllers/EquipmentController.cs:85-92 | NotFound exactly for a missing item. After a delete the item is gone and the table is one row shorter; every other item remains. |
| Calendars.CalendarOf | PhotoStudioManager.API/Controllers/CalendarController.cs:37 | The photographer's first calendar, or none exactly when no calendar belongs to the photographer. |
| Calendars.WithCalendar | PhotoStudioManager.API/Controllers/CalendarController.cs:36-45 | The first-use creation: the calendar table is unchanged when the photographer has a calendar. Otherwise a new calendar for them is appended under the fresh key. |
| Calendars.WithCalendarProvides | PhotoStudioManager.API/Controllers/CalendarController.cs:36-45 | After first-use creation the photographer has a calendar: the one they had, or the new one. No other photographer's calendar changes. |
| Calendars.WithCalendarIdempotent | PhotoStudioManager.API/Controllers/CalendarController.cs:36-45 | The calendar is created at most once. |
| Calendars.ApplyEventEdit | PhotoStudioManager.API/Controllers/CalendarController.cs:185-191 | Title, description, start, end, location, type and session link come from the request. The key and the calendar stay as stored. |
| Calendars.InWindow | PhotoStudioManager.API/Controllers/CalendarController.cs:87-93 | The events query's condition: the event's calendar exists and belongs to the photographer, it starts no earlier than `start`, and it ends no later than `end`. |
| Calendars.EditEvents | PhotoStudioManager.API/Controllers/CalendarController.cs:159-207 | UpdateEvent's transition: EventUpdateAccess on the stored event (None when missing). Only when it passes, the event becomes ApplyEventEdit of the request and is returned; otherwise the refusal, with the table unchanged. |
| Calendars.DeleteEvents | PhotoStudioManager.API/Controllers/CalendarController.cs:210-235 | DeleteEvent's transition: EventAccess on the event with that id. Only when it passes, the event is removed by key; otherwise the table is unchanged. |
| Calendars.CalendarController.EnsureCalendar | PhotoStudioManager.API/Controllers/CalendarController.cs:36-45 | The calendar table becomes WithCalendar. The key counter moves only when a calendar is created, and the photographer's calendar is returned. |
| Calendars.CalendarController.GetPhotographerCalendar | PhotoStudioManager.API/Controllers/CalendarController.cs:23-57 | Forbid with nothing created. Otherwise it returns the photographer's calendar, created on first use, with exactly that calendar's events. |
| Calendars.CalendarController.GetPhotographerEvents | PhotoStudioManager.API/Controllers/CalendarController.cs:60-97 | Forbid with nothing created. Otherwise it returns exactly the events of the photographer's calendars that start no earlier than `start` and end no later than `end`. |
| Calendars.CalendarController.CreateEvent | PhotoStudioManager.API/Controllers/CalendarController.cs:100-129 | Forbid with nothing changed. Otherwise the request is filed under a fresh key in the photographer's calendar, created on first use. |
| Calendars.CalendarController.FileEvent | PhotoStudioManager.API/Controllers/CalendarController.cs:124-126 | Adds the event under a fresh key in the given calendar. |
| Calendars.CalendarController.GetEvent | PhotoStudioManager.API/Controllers/CalendarController.cs:132-156 | The stored event exactly when EventAccess passes; otherwise its refusal. |
| Calendars.CalendarController.UpdateEvent | PhotoStudioManager.API/Controllers/CalendarController.cs:159-207 | The reply, and the event table after it, as given by EditEvents. |
| Calendars.CalendarController.DeleteEvent | PhotoStudioManager.API/Controllers/CalendarController.cs:210-235 | The outcome, and the table after it, as given by DeleteEvents. |
| Calendars.CreatedEventIsAccessible | PhotoStudioManager.API/Controllers/CalendarController.cs:124-128 | An event filed in a photographer's calendar by its owner passes the event check for that owner. |
| Calendars.EditEventsIdempotent | PhotoStudioManager.API/Controllers/CalendarController.cs:185-195 | Repeating an update gives the same reply and changes nothing more. |
| Calendars.EditEventsKeepsAccess | PhotoStudioManager.API/Controllers/CalendarController.cs:185-191 | An update never moves an event to another calendar, so every caller's decision on every event is unchanged. |
| Calendars.DeletedEventIsGone | PhotoStudioManager.API/Controllers/CalendarController.cs:231-232 | A refused delete changes nothing. After a permitted delete the event is gone and the table is one row shorter; every other event remains. |
| Photographers.DisplayName | PhotoStudioManager.API/Controllers/PhotographersController.cs:37 | The name is the first name, one space, then the last name. |
| Photographers.DisplayNameInjective | PhotoStudioManager.API/Controllers/PhotographersController.cs:37 | When first names contain no space, the display name determines both names. |
| Photographers.SummaryOf | PhotoStudioManager.API/Controllers/PhotographersController.cs:27-38 | The listed fields of the profile, and the display name. |
| Photographers.ApplyProfileEdit | PhotoStudioManager.API/Controllers/PhotographersController.cs:139-145 | Names, e-mail, phone, specialization, rate and portfolio come from the request. The key, the owner, the bio, the website and the creation time stay as stored. |
| Photographers.NewProfile | PhotoStudioManager.API/Controllers/PhotographersController.cs:109-110 | The new profile is owned by the caller. |
| Photographers.CreateProfiles | PhotoStudioManager.API/Controllers/PhotographersController.cs:101-116 | CreatePhotographer's transition: Unauthorized without a user id. The unique-index failure comes when a profile is already linked to the caller. Both leave the table unchanged. Otherwise NewProfile is appended under the fresh key. |
| Photographers.EditProfiles | PhotoStudioManager.API/Controllers/PhotographersController.cs:119-164 | UpdatePhotographer's transition: ProfileUpdateAccess on the stored profile (None when missing). Only when it passes, that row becomes ApplyProfileEdit of the request; otherwise the table is unchanged. |
| Photographers.DeleteProfiles | PhotoStudioManager.API/Controllers/PhotographersController.cs:167-186 | DeletePhotographer's transition: ProfileOwnerAccess on the profile with that id. Only when it passes, that row is removed by key; otherwise the table is unchanged. |
| Photographers.PhotographersController.GetPhotographers | PhotoStudioManager.API/Controllers/PhotographersController.cs:23-42 | One summary per profile, in table order. |
| Photographers.PhotographersController.GetPhotographerByUserId | PhotoStudioManager.API/Controllers/PhotographersController.cs:45-70 | The summary of the first profile linked to that user, or NotFound exactly when none is. |
| Photographers.PhotographersController.GetPhotographer | PhotoStudioManager.API/Controllers/PhotographersController.cs:73-98 | The summary of the profile with that id, or NotFound exactly when there is none. |
| Photographers.PhotographersController.CreatePhotographer | PhotoStudioManager.API/Controllers/PhotographersController.cs:101-116 | The reply and the table after it, as given by CreateProfiles; the key counter moves only when a profile is stored. |
| Photographers.CreateProfilesEffect | PhotoStudioManager.API/Controllers/PhotographersController.cs:101-116 | Unauthorized exactly without a user id. The save throws exactly when a profile is already linked to the caller, because the one-to-one link to the user carries a unique index (PhotoStudioManager.Infrastructure/Data/ApplicationDbContext.cs:69-72). Neither failure stores anything. Otherwise the caller's profile is stored under a fresh key, and the lookup by the caller's user id finds it. |
| Photographers.CreateProfilesKeepsOneProfilePerUser | PhotoStudioManager.Infrastructure/Data/ApplicationDbContext.cs:69-72 | A create never links a second profile to a user. |
| Photographers.EditProfilesKeepsOneProfilePerUser | PhotoStudioManager.API/Controllers/PhotographersController.cs:139-145 | An update never links a second profile to a user. |
| Photographers.DeleteProfilesKeepsOneProfilePerUser | PhotoStudioManager.API/Controllers/PhotographersController.cs:182-183 | A delete never links a second profile to a user. |
| Photographers.PhotographersController.UpdatePhotographer | PhotoStudioManager.API/Controllers/PhotographersController.cs:119-164 | The outcome, and the table after it, as given by EditProfiles. |
| Photographers.PhotographersController.DeletePhotographer | PhotoStudioManager.API/Controllers/PhotographersController.cs:167-186 | The outcome, and the table after it, as given by DeleteProfiles. |
| Photographers.CreatorOwnsProfile | PhotoStudioManager.API/Controllers/PhotographersController.cs:109-113 | The caller who creates a profile may then edit it and delete it. |
| Photographers.EditProfilesIdempotent | PhotoStudioManager.API/Controllers/PhotographersController.cs:139-145 | Repeating an update gives the same decision and changes nothing more. |
| Photographers.EditProfilesKeepsOwners | PhotoStudioManager.API/Controllers/PhotographersController.cs:139-145 | An edit changes no profile's owner. Every caller's edit and delete decision, and the profile linked to each user id, stay the same. |
| Photographers.DeletedProfileIsGone | PhotoStudioManager.API/Controllers/PhotographersController.cs:182-183 | A refused delete changes nothing. After a permitted delete the profile is gone and the table is one row shorter; every other profile remains. |

## Left out

- Response shapes: the DTO projections (SessionDto, PhotoDto, UserDto) and HTTP status
  codes. Handlers return the record, or the rejection as a `Failure`.
- The `[Authorize]` filter on every controller. It runs before any handler, and
  token validation happens in the framework.
- `async`, and concurrent requests.
- The `DbUpdateConcurrencyException` catch blocks of UpdateSession, UpdateEvent and
  UpdatePhotographer. These handlers read the row first, so the catch fires only when the
  row vanishes between the read and the save. UpdateEquipment is different: it marks the
  request body as modified without reading the row. For a missing id the UPDATE touches no
  row, and its catch is the only route to NotFound. `EquipmentRegister.UpdateItems`
  models that NotFound as a missing key.
- Referential actions of the database:
  - cascade deletes (a session's photos, a photographer's calendars and their events);
  - Restrict failures (deleting a session with payments, or a photographer with sessions);
  - foreign-key checks on inserted rows.
  Each delete removes only the named row.
- `Store.Store.Valid` does not carry the unique index on the profiles' UserId. Instead,
  `Photographers.OneProfilePerUser` states it, and lemmas show that each photographer
  handler keeps it. `Auth.AuthService.Register` stores a profile for a user id no account
  has; only the foreign key, which is not modelled, rules out a profile already linked to
  that id.
- Keys are issued by the model's own counter, and a create ignores any key in the request
  body. In the source the keys are SQL Server identity columns. A body with a non-zero
  `Id` makes the insert send an explicit identity value, which the database refuses. The
  save then throws a DbUpdateException, a 500, and nothing is stored. That failure is not
  modelled, and neither is 32-bit overflow of identity values.
- The password hash, HMAC-SHA256 signing (section 3.2 of RFC 7518) and the token's compact
  serialisation; the HS256 minimum key size is not checked.
- `GetRolesAsync` and `AddToRoleAsync` as separate calls. An account's role
  assignments are the record's `Roles` field.
- `UpdateAsync`'s result after a login; it is ignored in the source too.
- FindByEmail's exception when several accounts share an e-mail. The first match is
  taken.
- Upper-casing covers ASCII letters only; the identity library uses invariant-culture
  normalisation.
- `Auth.AuthService.Register`: the new user id is a parameter, and the requested role is
  ignored, as in the source.
- Each handler reads the clock once as `now`. The source reads `DateTime.UtcNow`
  several times per handler, and JwtService uses local `DateTime.Now` for the expiry.
  Both are taken as one UTC reading.
- `Payments.InvoiceNumber`: the `yyyyMMdd` stamp is formatted with the current culture's
  calendar. The model assumes the Gregorian calendar (the invariant culture's).
- `Text.IntToString`: `int.ToString()` uses the current culture's NegativeSign; the model
  assumes '-'.
- `DateTime`'s upper limit, 9999-12-31. Times are unbounded natural numbers;
  `Payments.InvoiceStampIsIssueDay` is stated for years up to 9999.
- Decimal storage precision, `decimal(18,2)` and `decimal(5,2)`. Amounts are exact
  reals; the source's decimal products are exact in C# too.
- `Payments.PaymentsController.CreatePayment`: the e-mail transport (SMTP) is not
  modelled. Sent reminders are recorded in the store's ghost `reminders` log.
- `Sessions.SessionsController.UploadPhoto`: the uploaded file's content and its
  storage are not modelled, as in the source. Only the file name is used.
- `Sessions.SessionsController.ApprovePhoto`: models the intended check: the photo's
  session is the stored session with that id. As written, the source reads the photo's
  unloaded session navigation, which is null. It therefore throws for every client with a
  profile, and never approves a photo. See "## Findings" and
  `Sessions.ApprovePhotosAsWritten`.
- `Calendars.CalendarOf`: CalendarController's `p.Calendar` is taken as the first
  calendar of the photographer. The entity declares a list of calendars. The NotFound
  branch after first-use creation cannot be reached, so the model has no such branch.
- `Sessions.SessionsController.CreateSession`: returns the stored session. As written,
  after the save the handler reads `session.Client` and `session.Photographer` to build its
  reply. EF fills a navigation only when the related row is tracked, and the only tracked
  profile is the caller's own, so the other navigation is null. Both are null for a caller
  with neither role. Unless the body nests both objects, the row is stored and the handler
  then throws a NullReferenceException, so the caller gets a 500. This is not modelled.
- Objects nested in the body of a create request are not modelled. This covers
  CreateSession, CreateEquipment, CreateEvent, CreatePayment and CreatePhotographer; for
  example, a session's client or photographer, or an event's calendar or session. EF adds
  a nested object whose key is unset as a new row, together with the created row. The model
  stores only the created row, with the foreign-key fields as given.
- `EquipmentRegister.EquipmentController.CreateEquipment`: sessions nested in the
  request body are not modelled. EF would insert them as new sessions; a new item starts
  with no links.
- Entity fields the controllers and services use but the entity classes lack:
  - Photographer's Phone, Specialization and HourlyRate (the class declares `PhoneNumber`,
    and the record's `Phone` stands for it);
  - ApplicationUser's `UserRoles` and `LastLoginAt` (AuthService.cs and JwtService.cs use
    them; here they are the record's `Roles` and `LastLoginAt`);
  - PhotoSession's Title;
  - PaymentStatus.Completed.
  They are part of the records here.
- Payment's foreign key: the database configuration names `SessionId`, which Payment does
  not declare. The model reads it as Payment's `PhotoSessionId`, the field the controllers
  use.
- Fields the core does not use: Photo's `Tags` and Photographer's `ProfilePicture`.
- AuthController is not part of this model. Its `int.Parse` of the user id throws
  before ChangePasswordAsync is called when the id is not numeric.
- EmailService's message bodies are not part of this model.

## Findings

| source | as written | input that shows it | evidently intended | confidence | as-written member | corrected member |
|---|---|---|---|---|---|---|
| PhotoStudioManager.Infrastructure/Services/AuthService.cs:128-130 | ChangePasswordAsync takes the user id as an `int` and looks up `userId.ToString()`. | Any account with the identity library's default GUID id, such as `0f8fad5b-d9cb-469f-a165-70867728950e`: no number renders as that string, so the answer is always "User not found". | Look the account up by its string id. | high (not executed) | Auth.AuthService.ChangePassword, Auth.GuidAccountUnreachableByNumber | Auth.AuthService.ChangePasswordFor |
| PhotoStudioManager.API/Controllers/SessionsController.cs:410-417 | ApprovePhoto loads the photo without `Include(p => p.PhotoSession)`, and nothing else in the request loads that session. `photo.PhotoSession` is null, and reading its ClientId throws before `IsApproved` is set. | A Client whose profile (id 1) owns session 2 approves photo 4 of that session: a NullReferenceException, and the photo stays unapproved. | Compare the client with the stored session's ClientId, and approve when they match. | high (not executed) | Sessions.ApprovePhotosAsWritten, Sessions.AsWrittenApprovalNeverApproves, Sessions.ApprovalCrashExample | Sessions.ApprovePhotos |
