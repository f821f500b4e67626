# Nobat back end: bookings, reminders, authentication, stylist profiles, users

This project is a Dafny model of the service layer of the Nobat salon-booking
back end, a NestJS application on TypeORM and PostgreSQL. The model covers:

- **BookingsService**:
  - each stylist's weekly working hours (the *availability* row);
  - one-off blocks of time (*exceptions*);
  - the free slots of a day;
  - the ordered checks a booking request must pass: working day, minimum
    notice, maximum advance, overlap;
  - creating a booking, by a signed-in customer or publicly by phone number;
  - cancelling, rescheduling and updating a booking;
  - the per-stylist and per-customer listings.
- **BookingReminderService**: the hourly sweep that reminds customers of
  tomorrow's confirmed bookings, and the manual reminder for one booking.
- **AuthService**:
  - SMS one-time passwords (OTPs);
  - login by password or OTP, with the account locked after three wrong
    passwords;
  - rotating refresh tokens, and logout.
- **StylistsService**: the stylist profile. It goes DRAFT → PENDING_APPROVAL
  → APPROVED or REJECTED; an admin can SUSPEND it; editing sends it back to
  DRAFT. Only an APPROVED profile is public and bookable.
- **UsersService**: user lookups, completing the profile once, setting the
  password once, and stamping the last login.

## How the model is built

The database is one class, `Store.Database`:

- Each table is a `seq` of rows in insertion order. `findOne` without an
  `order` is modelled as taking the first matching row in that order
  (`Common.FirstIndex`). PostgreSQL promises no order there, so the order
  is the model's choice.
- Generated uuids are fresh numbers taken from a counter.

Each service is a class holding the database. Its methods change exactly
the tables their `modifies` clauses name. Each method's `ensures` ties the
new tables and the answer to pure functions, and lemmas state what the
source promises about those functions.

Units:

- A time of day is minutes since midnight (0..1439).
- A date is a day number counted from 1 January 1970.
- An instant is milliseconds.

Things the program gets from outside are parameters:

- the clock (`now`, and the reminder window);
- `Math.random()` (`draw`);
- `bcrypt` (`passwordMatches`, `hash`);
- the JWT service (`signatureValid`, `signed`);
- whether the SMS gateway delivered a message (`delivered`).

Partial updates follow the source's `Object.assign` + `save`: a field absent
from the form keeps the stored value (`Common.OrOpt`). `save` does not write
`undefined` properties, so a cleared value in memory is not cleared in the
table. An explicit `null` is written as NULL. For the weekday times of the
availability form, which are nullable columns, the form's fields have three
values: absent, `null` or a time (`Common.Field`, `Common.Assigned`). Sending
`null` is how a stylist stops working on a weekday
(`Scheduling.PatchedWeekday`).

### Where the code is followed rather than the design description

- **Reschedule.** The design says the booking being rescheduled should not
  conflict with itself. The code validates the new range against the table
  as it stands, with the original still PENDING or CONFIRMED. A new range
  that overlaps the old one is therefore refused with Conflict
  (`Scheduling.HoldingBookingRefusesOverlap`).
- **Booking status.** The design describes a state machine with terminal
  states. `updateBooking` accepts any status from any status. An update can
  therefore revive a cancelled booking over the booking that replaced it
  (`Scheduling.UpdateCanDoubleBook`).
- **Exceptions.**
  - The design says a malformed exception (only one of its two times) is
    rejected. `createException` stores it, and the overlap test ignores it
    (`Scheduling.HalfSetExceptionIgnored`).
  - The design says recurring exceptions match by weekday. The code matches
    only on the stored date.
- **Reminder window.** The reminder query asks for
  `bookingDate > tomorrowStart`, and the filter then asks for
  `bookingDate <= tomorrowEnd`. The model reads a `date` column as a `Date`
  at local midnight (see "## Left out" for how the driver actually returns
  it). Under that reading, with the midnight-aligned window the service
  computes, the sweep selects no booking at all
  (`Reminders.MidnightSweepChangesNothing`).
- **Booking notifications.** `createBooking`, `createPublicBooking`,
  `cancelBooking` and `rescheduleBooking` end by building an SMS from
  `booking.stylist` and `booking.customer`. Those relations are never
  loaded: `create` does not set them, and `findOne` is called without
  `relations`. The first read of `booking.stylist.firstName` throws. Nothing
  catches the error, so the request is answered with status 500 after its
  rows have been saved. The model answers `Bookings.NotificationCrash` with
  the rows stored.
- **Profile review.** `adminApproveProfile` stores whatever status the form
  carries. The form is documented as APPROVED or REJECTED, but nothing
  enforces this.
- **Roles.** `completeProfile` takes the role from the form, so a new user
  may choose ADMIN (`Users.SelfChosenRole`).

## Model

| member | source | states |
|---|---|---|
| Common.FirstIndex | back-end/src/users/services/users.service.ts:22-24 | `findOne` returns the first row, in table order, that satisfies the where-condition. It finds nothing exactly when no row does. |
| Entities.NewUser | back-end/src/users/entities/user.entity.ts:35-59 | A new user row has role USER, status PENDING, no failed logins, no password and an unverified phone. |
| Scheduling.ExceptionsAllow | back-end/src/bookings/services/bookings.service.ts:554-565 | The exception loop lets a range through exactly when no exception on that date is full-day and none with both times overlaps the range. |
| Scheduling.BookingsAllow | back-end/src/bookings/services/bookings.service.ts:567-594 | The booking loop lets a range through exactly when no PENDING or CONFIRMED booking of that stylist on that date overlaps it. |
| Scheduling.SlotAvailableMeans | back-end/src/bookings/services/bookings.service.ts:541-595 | A half-open range is free exactly when no full-day exception, no overlapping timed exception and no overlapping PENDING or CONFIRMED booking of that stylist and date exists. |
| Scheduling.HeldRowsDecide | back-end/src/bookings/services/bookings.service.ts:567-585 | The PENDING query followed by the CONFIRMED query returns exactly the stylist's holding bookings on the date, so scanning those rows decides the booking half of the test. |
| Scheduling.NonHoldingNeverBlocks | back-end/src/bookings/services/bookings.service.ts:568-585 | CANCELLED, COMPLETED and RESCHEDULED bookings never change whether a range is free. |
| Scheduling.HalfSetExceptionIgnored | back-end/src/bookings/services/bookings.service.ts:554-565 | An exception with exactly one time set changes no answer. |
| Scheduling.SlotEnd | back-end/src/bookings/services/bookings.service.ts:459-461 | The printed slot end is a time of day: start plus duration, wrapped at midnight. |
| Scheduling.SlotsFromMembers | back-end/src/bookings/services/bookings.service.ts:454-472 | The slot loop emits t exactly when t lies in [cursor, end), is a whole number of steps after the cursor, and is free. |
| Scheduling.SlotsFromAscending | back-end/src/bookings/services/bookings.service.ts:457-472 | The emitted starts are strictly ascending and never before the cursor. |
| Scheduling.AvailableSlotsEmptyCases | back-end/src/bookings/services/bookings.service.ts:414-447 | `getAvailableSlots` gives NotFound without an availability row. It gives no slots on a weekday with an unset start or end, or on a date with a full-day exception. |
| Scheduling.AvailableSlotsOnWorkingDay | back-end/src/bookings/services/bookings.service.ts:449-475 | On a working day a start is offered exactly when it is the day start plus whole steps of slot length plus buffer, lies before the day end, and its slot is free. The starts are ascending. |
| Scheduling.ValidateBookingChain | back-end/src/bookings/services/bookings.service.ts:478-539 | Booking validation fails, in this order: NotFound, not a working day, lead time under the minimum notice (equality passes), lead time over maxAdvanceDays whole days (the rounded-up day count), Conflict. Otherwise it passes. |
| Scheduling.HoldingBookingRefusesOverlap | back-end/src/bookings/services/bookings.service.ts:324-347 | Any range overlapping a PENDING or CONFIRMED booking of the same stylist and date fails validation, including the booking being rescheduled. |
| Scheduling.AdmittedBookingKeepsLedger | back-end/src/bookings/services/bookings.service.ts:528-538 | A booking admitted by the overlap test keeps the table free of overlapping PENDING/CONFIRMED bookings. |
| Scheduling.ReleaseKeepsLedger | back-end/src/bookings/services/bookings.service.ts:307-316 | Replacing a booking by one that holds no time keeps the table free of double bookings, and keeps every free range free. |
| Scheduling.CancelRestoresAvailability | back-end/src/bookings/services/bookings.service.ts:294-322 | Booking a range and then cancelling that booking gives back exactly the availability there was before. |
| Scheduling.UpdatedBooking | back-end/src/bookings/services/bookings.service.ts:269-292 | An update never moves a booking or changes its parties. Its status becomes the requested one, from any status. The matching confirmed, completed or cancelled time is stamped and the others are kept. Absent fields keep their values. |
| Scheduling.UpdateCanDoubleBook | back-end/src/bookings/services/bookings.service.ts:282-291 | Some update takes a table without double bookings to one with two overlapping holding bookings. |
| Scheduling.Matching | back-end/src/bookings/services/bookings.service.ts:379-386 | The where-clause keeps each matching row as often as it occurs and drops the others. |
| Scheduling.InsertOrdered | back-end/src/bookings/services/bookings.service.ts:388-390 | Inserting into a listing ordered by date, then start time, keeps it ordered and adds exactly that row. |
| Scheduling.SortByDateTime | back-end/src/bookings/services/bookings.service.ts:388-391 | The listing order is by date, then start time, over the same rows. |
| Scheduling.DefaultAvailability | back-end/src/bookings/entities/stylist-availability.entity.ts:66-79 | A new availability row has no working day and its defaults (60, 15, 120, 90) lie within the form's ranges. |
| Scheduling.AvailabilityOf | back-end/src/bookings/services/bookings.service.ts:61-71 | The stylist's availability row is one of the table's rows, for that stylist. There is none exactly when no row is that stylist's. |
| Scheduling.PatchedInRanges | back-end/src/bookings/dto/set-availability.dto.ts:68-91 | A form within its declared ranges keeps an availability row within them. |
| Scheduling.PatchedWeekday | back-end/src/bookings/services/bookings.service.ts:54-56 | A `null` start or end in the form closes the weekday; two given times open it at exactly that window; a weekday the form leaves out keeps its window. |
| Scheduling.PatchedIdempotent | back-end/src/bookings/services/bookings.service.ts:54-56 | Assigning the same form twice is assigning it once. |
| Scheduling.StoreAvailabilityReadsBack | back-end/src/bookings/services/bookings.service.ts:41-59 | After `setAvailability` the stylist's row reads back as the stored row (or the defaults) merged with the form. Every other stylist's row is unchanged. |
| Scheduling.StoreAvailabilityIdempotent | back-end/src/bookings/services/bookings.service.ts:41-59 | Saving the same availability form twice leaves the table as saving it once. |
| Store.Database.Issue | back-end/src/users/entities/user.entity.ts:16-17 | A generated key is larger than every stored key. |
| Bookings.BookingsService.SetAvailability | back-end/src/bookings/services/bookings.service.ts:41-59 | The stylist's row is merged with the form, or created from the defaults, and reads back as the returned row. A `null` weekday time clears that weekday. |
| Bookings.BookingsService.GetAvailability | back-end/src/bookings/services/bookings.service.ts:61-71 | Returns the stylist's row. NotFound exactly when the stylist has none. |
| Bookings.BookingsService.CreateException | back-end/src/bookings/services/bookings.service.ts:74-85 | Appends the exception as given, with no validation; it is not recurring unless the form says so. |
| Bookings.BookingsService.DeleteException | back-end/src/bookings/services/bookings.service.ts:106-116 | Removes the exception with that id only if it is the stylist's own. Otherwise NotFound, and nothing changes. |
| Bookings.BookingsService.IsSlotAvailable | back-end/src/bookings/services/bookings.service.ts:541-595 | The two loops answer `Scheduling.IsSlotAvailable` over the current tables. |
| Bookings.BookingsService.ExceptionsLoop | back-end/src/bookings/services/bookings.service.ts:554-565 | The exception loop answers `Scheduling.ExceptionsAllow`. |
| Bookings.BookingsService.NoneOverlaps | back-end/src/bookings/services/bookings.service.ts:587-594 | The booking loop answers true exactly when no fetched row overlaps the range. |
| Bookings.BookingsService.WalkSlots | back-end/src/bookings/services/bookings.service.ts:450-472 | The while loop emits exactly the starts `Scheduling.SlotsFrom` describes for the window, step and slot test. |
| Bookings.BookingsService.GetAvailableSlots | back-end/src/bookings/services/bookings.service.ts:414-475 | The slot loop returns the slots `Scheduling.AvailableSlots` describes for the date's weekday. |
| Bookings.BookingsService.ValidateBookingAvailability | back-end/src/bookings/services/bookings.service.ts:478-539 | The checks run in the source's order, and the first failure is the answer. |
| Bookings.BookingsService.CreateBooking | back-end/src/bookings/services/bookings.service.ts:119-164 | NotFound without an APPROVED stylist profile or without the customer. Otherwise the validation's failure is returned and nothing is stored, or a new PENDING booking is appended and the answer is the notification's 500 (`NotificationCrash`). The table stays free of double bookings. |
| Bookings.BookingsService.CreatePublicBooking | back-end/src/bookings/services/bookings.service.ts:166-217 | Like CreateBooking, but validation comes before the customer lookup. The customer is the first user with the phone number, or a new ACTIVE user with an unverified phone. A validation failure stores nothing; after storing, the answer is the notification's 500 (`NotificationCrash`). |
| Bookings.BookingsService.StoreRequested | back-end/src/bookings/services/bookings.service.ts:146-158 | Appends the PENDING booking of the request under a fresh id. The table stays free of double bookings. |
| Bookings.BookingsService.StorePublicRequest | back-end/src/bookings/services/bookings.service.ts:182-211 | Finds or creates the customer by phone number, then appends the PENDING booking for that customer. |
| Bookings.BookingsService.StoreRescheduled | back-end/src/bookings/services/bookings.service.ts:350-367 | Marks the original RESCHEDULED and appends its CONFIRMED successor. The table stays free of double bookings. |
| Bookings.BookingsService.FindOrCreateCustomer | back-end/src/bookings/services/bookings.service.ts:182-196 | Returns the first user with the phone number, or stores and returns a new ACTIVE unverified customer. |
| Bookings.BookingsService.GetBooking | back-end/src/bookings/services/bookings.service.ts:219-230 | Returns the booking with that id. NotFound exactly when there is none. |
| Bookings.BookingsService.CancelBooking | back-end/src/bookings/services/bookings.service.ts:294-322 | NotFound, or BadRequest for an already cancelled booking. Otherwise the booking becomes CANCELLED with who, when and why, and the answer is the notification's 500 (`NotificationCrash`). The table stays free of double bookings. |
| Bookings.BookingsService.RescheduleBooking | back-end/src/bookings/services/bookings.service.ts:324-373 | NotFound; BadRequest when cancelled; the validation's failure for the new range. Otherwise the original becomes RESCHEDULED and a CONFIRMED copy at the new range, pointing back to it, is appended, and the answer is the notification's 500 (`NotificationCrash`). The table stays free of double bookings. |
| Bookings.BookingsService.UpdateBooking | back-end/src/bookings/services/bookings.service.ts:269-292 | NotFound, or the booking is replaced by `Scheduling.UpdatedBooking`. |
| Bookings.BookingsService.GetStylistBookings | back-end/src/bookings/services/bookings.service.ts:375-392 | Exactly the stylist's bookings (of the status, when given), each as often as stored, ordered by date and start time. |
| Bookings.BookingsService.GetCustomerBookings | back-end/src/bookings/services/bookings.service.ts:394-412 | Exactly the customer's bookings (of the status, when given), each as often as stored, ordered by date and start time. |
| Reminders.Swept | back-end/src/bookings/services/booking-reminder.service.ts:37-60 | The sweep changes only `reminderSentAt`. It stamps a booking exactly when the booking is due (CONFIRMED, in the window, not yet reminded) and the message was delivered. |
| Reminders.SweepIdempotent | back-end/src/bookings/services/booking-reminder.service.ts:46-52 | A second sweep with the same window reminds nobody twice. |
| Reminders.SweepKeepsLedger | back-end/src/bookings/services/booking-reminder.service.ts:63-104 | The sweep keeps the table free of double bookings. |
| Reminders.MidnightWindowExcludes | back-end/src/bookings/services/booking-reminder.service.ts:30-52 | With tomorrow's midnight-to-midnight window, no booking date passes both `> tomorrowStart` and `<= tomorrowEnd`. |
| Reminders.MidnightSweepChangesNothing | back-end/src/bookings/services/booking-reminder.service.ts:27-61 | With that window the hourly sweep leaves the booking table unchanged. |
| Reminders.BookingReminderService.SendBookingReminders | back-end/src/bookings/services/booking-reminder.service.ts:27-104 | The loop leaves the booking table as `Swept` describes. |
| Reminders.BookingReminderService.SendManualReminder | back-end/src/bookings/services/booking-reminder.service.ts:106-133 | False for an unknown or not CONFIRMED booking. Otherwise true, and the booking is stamped when the message was delivered. |
| Auth.OtpNumber | back-end/src/auth/services/auth.service.ts:51 | The drawn code lies between 100000 and 999999. |
| Auth.SentCodeHasSixDigits | back-end/src/auth/services/auth.service.ts:51 | The code as a string has six characters. |
| Auth.UsedOtpNotFoundAgain | back-end/src/auth/services/auth.service.ts:75-90 | Once a code is marked used, the same lookup can only find a later row. |
| Auth.FailedPassword | back-end/src/auth/services/auth.service.ts:189-198 | A wrong password adds one failed attempt and stamps it. The account is LOCKED exactly when it was locked or the count reaches three. Nothing else changes. |
| Auth.ThreeFailuresLock | back-end/src/auth/services/auth.service.ts:189-195 | Three wrong passwords in a row lock the account. |
| Auth.AuthService.SendOtp | back-end/src/auth/services/auth.service.ts:37-67 | NotFound for a LOGIN or ACCOUNT_UNLOCK code to an unknown number. Otherwise a six-digit unused code, valid for five minutes, is appended. |
| Auth.AuthService.VerifyOtp | back-end/src/auth/services/auth.service.ts:69-139 | The first unused matching unexpired code is marked used. PHONE_VERIFICATION verifies or creates the user. ACCOUNT_UNLOCK makes the user ACTIVE with no failed attempts. Otherwise BadRequest or NotFound. |
| Auth.AuthService.ApplyOtp | back-end/src/auth/services/auth.service.ts:95-136 | After an accepted code: PHONE_VERIFICATION verifies the user or creates a verified one; ACCOUNT_UNLOCK makes the user ACTIVE with no failed attempts; LOGIN leaves the user as it is; NotFound for an unknown number otherwise. |
| Auth.AuthService.SignIn | back-end/src/auth/services/auth.service.ts:207-218 | A successful login stamps the user's last login and appends a new refresh token for that user. |
| Auth.AuthService.IssueRefreshToken | back-end/src/auth/services/auth.service.ts:280-300 | Appends a token for the user that expires in thirty days. |
| Auth.AuthService.Login | back-end/src/auth/services/auth.service.ts:141-219 | Unknown user: NotFound. LOCKED: Unauthorized. An OTP is consumed if valid. A right password clears the count; a wrong one counts and may lock. Success stamps the login and issues a token; every failure but a wrong password changes nothing. |
| Auth.AuthService.RefreshToken | back-end/src/auth/services/auth.service.ts:221-252 | Succeeds exactly for a valid signature on an unrevoked, unexpired row. That row is then revoked as "replaced" and a new token appended. Otherwise Unauthorized, and nothing changes. |
| Auth.AuthService.Logout | back-end/src/auth/services/auth.service.ts:254-266 | The first row with the token is revoked as "logout". Otherwise nothing changes. |
| Stylists.NewProfile | back-end/src/stylists/services/stylists.service.ts:54-59 | A new profile is a DRAFT with the form's salon fields, never reviewed or submitted. |
| Stylists.Edited | back-end/src/stylists/services/stylists.service.ts:96-107 | Refused exactly while pending. Otherwise the given fields replace the stored ones and the profile is DRAFT again. |
| Stylists.Submitted | back-end/src/stylists/services/stylists.service.ts:113-125 | Refused exactly when APPROVED or PENDING_APPROVAL. Otherwise PENDING_APPROVAL, stamped with the submission time. |
| Stylists.Reviewed | back-end/src/stylists/services/stylists.service.ts:151-169 | Refused exactly when not pending, or when a rejection has no reason. Otherwise the decision becomes the status, with the admin and time; a rejection stores its reason. |
| Stylists.SuspendedProfile | back-end/src/stylists/services/stylists.service.ts:220-225 | Any profile becomes SUSPENDED, with the admin and time; a given reason replaces the stored one. |
| Stylists.ApprovalOnlyByReview | back-end/src/stylists/services/stylists.service.ts:90-170 | A profile that was not APPROVED becomes APPROVED only through an APPROVED review of a pending profile, which records the reviewing admin. |
| Stylists.DraftNeedsSubmission | back-end/src/stylists/services/stylists.service.ts:110-170 | No single step approves a DRAFT profile; submitting and then approving does. |
| Stylists.ReviewIsFinal | back-end/src/stylists/services/stylists.service.ts:151-155 | After a review that decides anything but PENDING_APPROVAL, a second review is refused. |
| Stylists.StepKeepsOwner | back-end/src/stylists/services/stylists.service.ts:90-226 | No lifecycle step changes a profile's id or owner. |
| Stylists.ReplaceKeepsOneProfile | back-end/src/stylists/services/stylists.service.ts:45-52 | Replacing a profile with one of the same owner keeps at most one profile per user. |
| Stylists.RemoveKeepsOneProfile | back-end/src/stylists/services/stylists.service.ts:172-178 | Deleting a profile keeps one profile per user, and leaves its owner with none. |
| Stylists.LeavingApprovalWithdrawsStylist | back-end/src/bookings/services/bookings.service.ts:125-131 | When a stylist's only profile leaves APPROVED, the stylist is no longer bookable. |
| Stylists.StylistsService.CreateProfile | back-end/src/stylists/services/stylists.service.ts:26-62 | NotFound for an unknown user; BadRequest for a non-provider or for a second profile. Otherwise a DRAFT profile is appended. At most one profile per user. |
| Stylists.StylistsService.GetOwnProfile | back-end/src/stylists/services/stylists.service.ts:64-75 | Returns the user's profile, whatever its status. NotFound exactly when the user has none. |
| Stylists.StylistsService.GetPublicProfile | back-end/src/stylists/services/stylists.service.ts:77-88 | Returns a profile exactly when it exists and is APPROVED. |
| Stylists.StylistsService.UpdateProfile | back-end/src/stylists/services/stylists.service.ts:90-108 | NotFound, or the user's profile is edited as `Edited` says. |
| Stylists.StylistsService.SubmitForApproval | back-end/src/stylists/services/stylists.service.ts:110-126 | NotFound, or the user's profile is submitted as `Submitted` says. |
| Stylists.StylistsService.AdminApproveProfile | back-end/src/stylists/services/stylists.service.ts:128-170 | Forbidden unless the caller is an ADMIN; NotFound for an unknown profile. Otherwise reviewed as `Reviewed` says, and a refusal stores nothing. |
| Stylists.StylistsService.DeleteProfile | back-end/src/stylists/services/stylists.service.ts:172-178 | NotFound, or the user's profile is removed and the user has none left. |
| Stylists.StylistsService.AdminSuspendProfile | back-end/src/stylists/services/stylists.service.ts:197-226 | Forbidden unless the caller is an ADMIN; NotFound for an unknown profile. Otherwise the profile is suspended as `SuspendedProfile` says. |
| Users.Completed | back-end/src/users/services/users.service.ts:45-57 | Refused exactly when the user is not PENDING. Otherwise ACTIVE, with the names, and with the birth date and role when given. |
| Users.CompletedOnce | back-end/src/users/services/users.service.ts:45-47 | A completed profile cannot be completed again. |
| Users.SelfChosenRole | back-end/src/users/services/users.service.ts:50-53 | A PENDING user can complete the profile as an ADMIN. |
| Users.WithPassword | back-end/src/users/services/users.service.ts:68-73 | Refused exactly when a password is set. Otherwise the hash is stored and nothing else changes. |
| Users.PasswordSetOnce | back-end/src/users/services/users.service.ts:62-78 | Once a non-empty hash is stored, every later attempt is refused. |
| Users.UsersService.FindById | back-end/src/users/services/users.service.ts:21-31 | Returns the user with the id. NotFound exactly when there is none. |
| Users.UsersService.FindByPhoneNumber | back-end/src/users/services/users.service.ts:33-37 | Returns a user with the phone number exactly when one exists. |
| Users.UsersService.GetProfile | back-end/src/users/services/users.service.ts:80-82 | The same answer as FindById. |
| Users.UsersService.CompleteProfile | back-end/src/users/services/users.service.ts:39-60 | NotFound, or the user is completed as `Completed` says. |
| Users.UsersService.SetPassword | back-end/src/users/services/users.service.ts:62-78 | NotFound, or the hash is stored as `WithPassword` says. |
| Users.UsersService.UpdateLastLogin | back-end/src/users/services/users.service.ts:84-88 | NotFound, or only the user's last login becomes `now`. |

## Left out

- SMS, e-mail and log output: the text of the OTP and reminder messages. The gateway's success is the parameter `delivered`. The booking notification helpers are modelled only by the error they end in (`Bookings.NotificationCrash`).
- The signed access token (`generateAccessToken`) and JWT verification. A token's signature check is the parameter `signatureValid`.
- bcrypt hashing and comparison are parameters.
- Generated uuids are modelled as fresh numbers.
- Time zones, daylight saving and `Date` parsing: dates are day numbers and times are minutes.
- Database concurrency: two requests checking the same slot at once are not modelled. Each operation is one atomic step.
- `Scheduling.IsSlotAvailable`: the source compares times as strings. A request's `"HH:MM"` is compared with a stored `"HH:MM:SS"`. The model compares minutes, which agrees except when the two times are equal to the minute.
- `getExceptions` with a date range and `getPublicBooking` are not modelled separately. The exceptions of one date are selected inside `Scheduling.IsSlotAvailable`. The public booking view only projects fields of `GetBooking`'s row.
- `getAllProfilesForAdmin` and `getProfilesByStatus` are not modelled: they list rows ordered by a creation timestamp that the model does not keep.
- Field types: money amounts and coordinates are `real`. Floating-point rounding is not modelled.
- Form ranges: the application installs no validation pipe. The declared ranges of the availability form (`PatchInRanges`) are taken as a precondition of `SetAvailability`, because the slot loop needs a positive step. Other forms are taken as they come.
- Mass assignment: `Object.assign` copies any property of the request body. The model copies only the form's declared fields.
- Stylists.SuspendedProfile: the returned object holds `undefined` when no reason is given. The model returns the stored row, which keeps the old reason.
- Bookings.BookingsService.CreatePublicBooking: the case of a request without a phone number is not modelled. The phone number is a `string` parameter.
- Reminders.Swept: the model reads `bookingDate` as a `Date` at local midnight. TypeORM's PostgreSQL driver returns a `date` column as a `"YYYY-MM-DD"` string. Then the filter's `>=`/`<=` against a `Date` compares with NaN and is always false, so the sweep stamps nothing whatever the window. The model's sweep may stamp rows whose date falls inside the window.
- Reminders.BookingReminderService.SendManualReminder: with a `date` column returned as a string, `booking.bookingDate.toISOString()` throws inside the reminder's `try`. The gateway is never called, nothing is stamped, and the answer is still true. The model assumes the date is a `Date`, so it stamps the booking when `delivered` holds.
- Bookings.BookingsService.UpdateBooking: when an update sets CANCELLED without `cancelledBy` or `cancellationReason`, the returned object holds `undefined` for them while the stored row keeps the old values. The model returns the stored row.
- Bookings.BookingsService.SetAvailability: an explicit `null` for a number or the flag of the availability form is not modelled. Those columns are NOT NULL, so `save` would fail with a database error.
- Explicit `null` in the other forms (`Scheduling.UpdatedBooking`, `Stylists.Edited`, `Users.Completed`) is not modelled: their fields are absent or present, and `null` is treated as absent.
