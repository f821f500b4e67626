/** `BookingsService`: the stylist's weekly availability and date
    exceptions, the slot listing, and the life cycle of bookings, over the
    shared tables. The clock (`new Date()`) is the parameter `now`. */
module Bookings {
  import opened Common
  import opened Entities
  import opened Scheduling
  import opened Store

  /** The booking form: date, times, notes and amounts. */
  datatype BookingRequest = BookingRequest(
    bookingDate: Day,
    startTime: Time,
    endTime: Time,
    customerNotes: Option<string>,
    depositAmount: Option<real>,
    totalAmount: Option<real>)

  /** The exception form. */
  datatype ExceptionRequest = ExceptionRequest(
    date: Day,
    startTime: Option<Time>,
    endTime: Option<Time>,
    reason: Option<string>,
    isRecurring: Option<bool>,
    recurringDayOfWeek: Option<int>)

  const StylistNotApproved := "Stylist not found or not approved"
  const CustomerMissing := "Customer not found"
  const BookingMissing := "Booking not found"
  const AlreadyCancelled := "Booking is already cancelled"
  const CancelledNotReschedulable := "Cannot reschedule a cancelled booking"
  const ExceptionMissing := "Exception not found"

  /** What the notification helpers end in. They read `booking.stylist` and
      `booking.customer`, relations that neither `create` nor a `findOne`
      without `relations` loads, so the first `booking.stylist.firstName`
      throws a TypeError. It is not caught, and it comes after the rows are
      saved. */
  const NotificationCrash := Error(Internal, "Cannot read properties of undefined (reading 'firstName')")

  /** The PENDING row a booking request creates. */
  function RequestedBooking(id: Id, stylistId: Id, customerId: Id, req: BookingRequest): Booking {
    Booking(id, stylistId, customerId, req.bookingDate, req.startTime, req.endTime, Pending,
            req.depositAmount, req.totalAmount, req.customerNotes,
            None, None, None, None, None, None, None, None)
  }

  /** The CONFIRMED row that replaces `original` at its new date and times,
      carrying over its parties, notes and amounts. */
  function RescheduledBooking(id: Id, original: Booking, date: Day, start: Time, end: Time): Booking {
    Booking(id, original.stylistId, original.customerId, date, start, end, Confirmed,
            original.depositAmount, original.totalAmount, original.customerNotes,
            None, None, None, None, Some(original.id), None, None, None)
  }

  /** The customer a public booking creates for an unknown phone number:
      ACTIVE, phone not verified. */
  function PublicCustomer(id: Id, phoneNumber: string, name: Option<string>): User {
    NewUser(id, phoneNumber).(firstName := name, status := Active)
  }

  /** `cancelBooking`'s changes to the row. */
  function CancelledBooking(b: Booking, cancelledBy: string, reason: Option<string>, now: Instant): Booking {
    b.(status := Cancelled, cancelledBy := Some(cancelledBy), cancelledAt := Some(now),
       cancellationReason := OrOpt(reason, b.cancellationReason))
  }

  /** The exception row `createException` stores; nothing is validated. */
  function NewException(id: Id, stylistId: Id, req: ExceptionRequest): StylistException {
    StylistException(id, stylistId, req.date, req.startTime, req.endTime, req.reason,
                     Or(req.isRecurring, false), req.recurringDayOfWeek)
  }

  /** The exception `deleteException` finds: same id and same stylist. */
  function ExceptionIndex(xs: seq<StylistException>, exceptionId: Id, stylistId: Id): Option<nat> {
    FirstIndex(xs, (x: StylistException) => x.id == exceptionId && x.stylistId == stylistId)
  }

  class BookingsService {
    const db: Database

    constructor (db: Database)
      ensures this.db == db
    {
      this.db := db;
    }

    /** `validateBookingAvailability` against the current tables. */
    function Validation(stylistId: Id, date: Day, start: Time, end: Time, now: Instant): Outcome
      reads db`availabilities, db`exceptions, db`bookings
    {
      ValidateBooking(AvailabilityOf(db.availabilities, stylistId), db.exceptions, db.bookings,
                      stylistId, date, WeekdayOf(date), start, end, now)
    }

    // -------------------------------------------------------------------
    // Availability and exceptions
    // -------------------------------------------------------------------

    /** Stores the form as the stylist's availability: the existing row
        merged with it, or a new row from the column defaults. */
    method SetAvailability(stylistId: Id, p: AvailabilityPatch) returns (a: Availability)
      requires db.Valid() && PatchInRanges(p)
      modifies db`availabilities
      ensures db.Valid()
      ensures db.availabilities == StoreAvailability(old(db.availabilities), stylistId, p)
      ensures AvailabilityOf(db.availabilities, stylistId) == Some(a)
    {
      var i := FirstIndex(db.availabilities, (x: Availability) => x.stylistId == stylistId);
      if i.None? {
        a := Patched(DefaultAvailability(stylistId), p);
      } else {
        a := Patched(db.availabilities[i.value], p);
        assert db.availabilities[i.value] in db.availabilities;
      }
      PatchedInRanges(if i.None? then DefaultAvailability(stylistId) else db.availabilities[i.value], p);
      StoreAvailabilityReadsBack(db.availabilities, stylistId, p, stylistId + 1);
      if i.None? {
        db.availabilities := db.availabilities + [a];
      } else {
        db.availabilities := db.availabilities[i.value := a];
      }
    }

    /** The stylist's availability row, or NotFound. */
    method GetAvailability(stylistId: Id) returns (r: Result<Availability>)
      ensures r.Ok? ==> r.value in db.availabilities && r.value.stylistId == stylistId
      ensures r.Err? <==> forall a :: a in db.availabilities ==> a.stylistId != stylistId
      ensures r.Err? ==> r.error == Error(NotFound, AvailabilityMissing)
    {
      var a := AvailabilityOf(db.availabilities, stylistId);
      if a.None? {
        return Err(Error(NotFound, AvailabilityMissing));
      }
      return Ok(a.value);
    }

    /** Stores a new exception for the stylist, whatever its times. */
    method CreateException(stylistId: Id, req: ExceptionRequest) returns (x: StylistException)
      requires db.Valid()
      modifies db`exceptions, db`nextId
      ensures db.Valid()
      ensures x == NewException(old(db.nextId), stylistId, req)
      ensures db.exceptions == old(db.exceptions) + [x]
    {
      var id := db.Issue();
      x := NewException(id, stylistId, req);
      db.exceptions := db.exceptions + [x];
    }

    /** Removes the stylist's exception with that id, or fails with NotFound
        when the id is unknown or belongs to another stylist. */
    method DeleteException(exceptionId: Id, stylistId: Id) returns (o: Outcome)
      requires db.Valid()
      modifies db`exceptions
      ensures db.Valid()
      ensures match ExceptionIndex(old(db.exceptions), exceptionId, stylistId)
              case None => o == Fail(Error(NotFound, ExceptionMissing)) && db.exceptions == old(db.exceptions)
              case Some(i) => o == Pass && db.exceptions == old(db.exceptions)[..i] + old(db.exceptions)[i + 1..]
    {
      var i := ExceptionIndex(db.exceptions, exceptionId, stylistId);
      if i.None? {
        return Fail(Error(NotFound, ExceptionMissing));
      }
      db.exceptions := db.exceptions[..i.value] + db.exceptions[i.value + 1..];
      o := Pass;
    }

    // -------------------------------------------------------------------
    // Slots
    // -------------------------------------------------------------------

    /** `isSlotAvailable`: the loop over the date's exceptions, then over
        the stylist's PENDING and then CONFIRMED bookings on that date,
        answering false at the first one that blocks [start, end). */
    method IsSlotAvailable(stylistId: Id, date: Day, start: int, end: int) returns (ok: bool)
      ensures ok == Scheduling.IsSlotAvailable(db.exceptions, db.bookings, stylistId, date, start, end)
    {
      ok := ExceptionsLoop(db.exceptions, stylistId, date, start, end);
      if !ok {
        return;
      }
      var held := HeldRows(db.bookings, stylistId, date);
      HeldRowsDecide(db.bookings, stylistId, date, start, end);
      ok := NoneOverlaps(held, start, end);
    }

    /** The loop over the exceptions of the date: false at the first
        full-day one or the first one with both times overlapping [start, end). */
    method ExceptionsLoop(xs: seq<StylistException>, stylistId: Id, date: Day, start: int, end: int) returns (ok: bool)
      ensures ok == ExceptionsAllow(xs, stylistId, date, start, end)
    {
      var i := 0;
      while i < |xs|
        invariant 0 <= i <= |xs|
        invariant forall k :: 0 <= k < i && ExceptionOn(xs[k], stylistId, date) ==>
                    !FullDay(xs[k]) && !BlocksRange(xs[k], start, end)
      {
        var x := xs[i];
        if ExceptionOn(x, stylistId, date) {
          if x.startTime.None? && x.endTime.None? {
            return false;
          }
          if x.startTime.Some? && x.endTime.Some? && Overlaps(start, end, x.startTime.value, x.endTime.value) {
            return false;
          }
        }
        i := i + 1;
      }
      return true;
    }

    /** The loop over the held bookings: false at the first one overlapping
        [start, end). */
    method NoneOverlaps(held: seq<Booking>, start: int, end: int) returns (ok: bool)
      ensures ok <==> forall b :: b in held ==> !Overlaps(start, end, b.startTime, b.endTime)
    {
      var j := 0;
      while j < |held|
        invariant 0 <= j <= |held|
        invariant forall k :: 0 <= k < j ==> !Overlaps(start, end, held[k].startTime, held[k].endTime)
      {
        if Overlaps(start, end, held[j].startTime, held[j].endTime) {
          return false;
        }
        j := j + 1;
      }
      return true;
    }

    /** `getAvailableSlots(stylistId, date)`: the loop over the working
        window, stepping by slot length plus buffer and keeping the starts
        whose slot is free. */
    method GetAvailableSlots(stylistId: Id, date: Day) returns (r: Result<seq<Time>>)
      requires db.Valid()
      ensures r == AvailableSlots(AvailabilityOf(db.availabilities, stylistId), db.exceptions, db.bookings,
                                  stylistId, date, WeekdayOf(date))
    {
      var avail := AvailabilityOf(db.availabilities, stylistId);
      if avail.None? {
        return Err(Error(NotFound, AvailabilityMissing));
      }
      var a := avail.value;
      var window := Window(a, WeekdayOf(date));
      if window.None? {
        return Ok([]);
      }
      var (start, end) := window.value;
      if FirstIndex(db.exceptions, x => ExceptionOn(x, stylistId, date) && FullDay(x)).Some? {
        return Ok([]);
      }
      assert a in db.availabilities;
      var slots := WalkSlots(stylistId, date, start, end, a.slotDurationMinutes + a.bufferTimeMinutes,
                             a.slotDurationMinutes);
      return Ok(slots);
    }

    /** The loop of `getAvailableSlots` over [start, end): every `step`
        minutes it asks `isSlotAvailable` about the slot of `duration`
        minutes and keeps the start when it is free. */
    method WalkSlots(stylistId: Id, date: Day, start: Time, end: Time, step: nat, duration: nat)
      returns (slots: seq<Time>)
      requires step > 0
      ensures slots == SlotsFrom(start, end, step, SlotIsFree(db.exceptions, db.bookings, stylistId, date, duration))
    {
      ghost var free := SlotIsFree(db.exceptions, db.bookings, stylistId, date, duration);
      slots := [];
      var cursor: nat := start;
      while cursor < end
        invariant slots + SlotsFrom(cursor, end, step, free) == SlotsFrom(start, end, step, free)
        decreases end - cursor
      {
        var ok := IsSlotAvailable(stylistId, date, cursor, SlotEnd(cursor, duration));
        SlotsFromStep(slots, cursor, end, step, free);
        slots := if ok then slots + [cursor] else slots;
        cursor := cursor + step;
      }
      assert slots + SlotsFrom(cursor, end, step, free) == slots;
    }

    /** `validateBookingAvailability`: the checks in the source's order. */
    method ValidateBookingAvailability(stylistId: Id, date: Day, start: Time, end: Time, now: Instant) returns (o: Outcome)
      ensures o == Validation(stylistId, date, start, end, now)
    {
      var avail := AvailabilityOf(db.availabilities, stylistId);
      if avail.None? {
        return Fail(Error(NotFound, AvailabilityMissing));
      }
      var a := avail.value;
      if Window(a, WeekdayOf(date)).None? {
        return Fail(Error(BadRequest, NotWorkingDay));
      }
      if NoticeMinutes(date, start, now) < a.minimumNoticeMinutes as real {
        return Fail(Error(BadRequest, NoticeTooShort));
      }
      if AdvanceDays(date, start, now) > a.maxAdvanceDays {
        return Fail(Error(BadRequest, TooFarAhead));
      }
      var free := IsSlotAvailable(stylistId, date, start, end);
      if !free {
        return Fail(Error(Conflict, SlotTaken));
      }
      return Pass;
    }

    // -------------------------------------------------------------------
    // Booking life cycle
    // -------------------------------------------------------------------

    /** `createBooking`: the stylist needs an APPROVED profile, the customer
        must exist, the request must pass validation; then a PENDING booking
        is stored, and no two holding bookings overlap if none did. The
        notifications that follow fail, so the caller never gets the booking. */
    method CreateBooking(stylistId: Id, customerId: Id, req: BookingRequest, now: Instant) returns (r: Result<Booking>)
      requires db.Valid()
      modifies db`bookings, db`nextId
      ensures db.Valid()
      ensures !ApprovedStylist(db.profiles, stylistId) ==> r == Err(Error(NotFound, StylistNotApproved))
      ensures ApprovedStylist(db.profiles, stylistId) && !UserExists(db.users, customerId) ==>
                r == Err(Error(NotFound, CustomerMissing))
      ensures ApprovedStylist(db.profiles, stylistId) && UserExists(db.users, customerId) ==>
                var v := old(Validation(stylistId, req.bookingDate, req.startTime, req.endTime, now));
                (v.Fail? ==> r == Err(v.error) && db.bookings == old(db.bookings) && db.nextId == old(db.nextId)) &&
                (v.Pass? ==> r == Err(NotificationCrash) &&
                             db.bookings == old(db.bookings) + [RequestedBooking(old(db.nextId), stylistId, customerId, req)])
      ensures r.Err?
      ensures r != Err(NotificationCrash) ==> db.bookings == old(db.bookings) && db.nextId == old(db.nextId)
      ensures NoDoubleBooking(old(db.bookings)) ==> NoDoubleBooking(db.bookings)
    {
      var p := FirstIndex(db.profiles, (p: StylistProfile) => p.userId == stylistId && p.status == Approved);
      if p.None? {
        return Err(Error(NotFound, StylistNotApproved));
      }
      if UserIndex(db.users, customerId).None? {
        return Err(Error(NotFound, CustomerMissing));
      }
      var v := ValidateBookingAvailability(stylistId, req.bookingDate, req.startTime, req.endTime, now);
      if v.Fail? {
        return Err(v.error);
      }
      var b := StoreRequested(stylistId, customerId, req);
      r := Err(NotificationCrash);
    }

    /** `createPublicBooking`: as `createBooking`, but validation comes
        right after the stylist check and the customer is the first user
        with the phone number, or a new ACTIVE unverified user. The
        notifications that follow fail after the rows are stored. */
    method CreatePublicBooking(stylistId: Id, req: BookingRequest, customerPhone: string, customerName: Option<string>,
                               now: Instant) returns (r: Result<Booking>)
      requires db.Valid()
      modifies db`bookings, db`users, db`nextId
      ensures db.Valid()
      ensures !ApprovedStylist(db.profiles, stylistId) ==> r == Err(Error(NotFound, StylistNotApproved))
      ensures ApprovedStylist(db.profiles, stylistId) ==>
                var v := old(Validation(stylistId, req.bookingDate, req.startTime, req.endTime, now));
                (v.Fail? ==> r == Err(v.error)) && (v.Pass? ==> r == Err(NotificationCrash))
      ensures r.Err?
      ensures r != Err(NotificationCrash) ==>
                db.bookings == old(db.bookings) && db.users == old(db.users) && db.nextId == old(db.nextId)
      ensures ApprovedStylist(db.profiles, stylistId) &&
              old(Validation(stylistId, req.bookingDate, req.startTime, req.endTime, now)).Pass? ==>
                match UserByPhone(old(db.users), customerPhone)
                case Some(c) =>
                  && db.users == old(db.users)
                  && db.bookings == old(db.bookings) + [RequestedBooking(old(db.nextId), stylistId, old(db.users)[c].id, req)]
                case None =>
                  && db.users == old(db.users) + [PublicCustomer(old(db.nextId), customerPhone, customerName)]
                  && db.bookings == old(db.bookings) + [RequestedBooking(old(db.nextId) + 1, stylistId, old(db.nextId), req)]
      ensures NoDoubleBooking(old(db.bookings)) ==> NoDoubleBooking(db.bookings)
    {
      var p := FirstIndex(db.profiles, (p: StylistProfile) => p.userId == stylistId && p.status == Approved);
      if p.None? {
        return Err(Error(NotFound, StylistNotApproved));
      }
      var v := ValidateBookingAvailability(stylistId, req.bookingDate, req.startTime, req.endTime, now);
      if v.Fail? {
        return Err(v.error);
      }
      var b := StorePublicRequest(stylistId, req, customerPhone, customerName);
      r := Err(NotificationCrash);
    }

    /** Finds or creates the customer with the phone number and stores the
        PENDING booking of a request whose range the overlap test admitted. */
    method StorePublicRequest(stylistId: Id, req: BookingRequest, customerPhone: string, customerName: Option<string>)
      returns (b: Booking)
      requires db.Valid()
      requires Scheduling.IsSlotAvailable(db.exceptions, db.bookings, stylistId, req.bookingDate, req.startTime, req.endTime)
      modifies db`bookings, db`users, db`nextId
      ensures db.Valid()
      ensures db.bookings == old(db.bookings) + [b]
      ensures match UserByPhone(old(db.users), customerPhone)
              case Some(c) =>
                db.users == old(db.users) && b == RequestedBooking(old(db.nextId), stylistId, old(db.users)[c].id, req)
              case None =>
                && db.users == old(db.users) + [PublicCustomer(old(db.nextId), customerPhone, customerName)]
                && b == RequestedBooking(old(db.nextId) + 1, stylistId, old(db.nextId), req)
      ensures NoDoubleBooking(old(db.bookings)) ==> NoDoubleBooking(db.bookings)
    {
      var customerId := FindOrCreateCustomer(customerPhone, customerName);
      b := StoreRequested(stylistId, customerId, req);
    }

    /** Stores the PENDING booking of a request whose range the overlap
        test admitted. */
    method StoreRequested(stylistId: Id, customerId: Id, req: BookingRequest) returns (b: Booking)
      requires db.Valid()
      requires Scheduling.IsSlotAvailable(db.exceptions, db.bookings, stylistId, req.bookingDate, req.startTime, req.endTime)
      modifies db`bookings, db`nextId
      ensures db.Valid()
      ensures b == RequestedBooking(old(db.nextId), stylistId, customerId, req) && db.nextId == old(db.nextId) + 1
      ensures db.bookings == old(db.bookings) + [b]
      ensures NoDoubleBooking(old(db.bookings)) ==> NoDoubleBooking(db.bookings)
    {
      var id := db.Issue();
      b := RequestedBooking(id, stylistId, customerId, req);
      if NoDoubleBooking(db.bookings) {
        AdmittedBookingKeepsLedger(db.exceptions, db.bookings, b);
      }
      db.bookings := db.bookings + [b];
    }

    /** The first user with the phone number, or a new ACTIVE unverified
        customer stored with it. */
    method FindOrCreateCustomer(customerPhone: string, customerName: Option<string>) returns (customerId: Id)
      requires db.Valid()
      modifies db`users, db`nextId
      ensures db.Valid()
      ensures match UserByPhone(old(db.users), customerPhone)
              case Some(c) => customerId == old(db.users)[c].id && db.users == old(db.users) && db.nextId == old(db.nextId)
              case None =>
                && customerId == old(db.nextId) && db.nextId == customerId + 1
                && db.users == old(db.users) + [PublicCustomer(customerId, customerPhone, customerName)]
    {
      var c := UserByPhone(db.users, customerPhone);
      if c.None? {
        customerId := db.Issue();
        db.users := db.users + [PublicCustomer(customerId, customerPhone, customerName)];
      } else {
        customerId := db.users[c.value].id;
      }
    }

    /** `getBooking`: the booking with that id, or NotFound. */
    method GetBooking(bookingId: Id) returns (r: Result<Booking>)
      ensures r.Ok? ==> r.value in db.bookings && r.value.id == bookingId
      ensures r.Err? <==> forall b :: b in db.bookings ==> b.id != bookingId
      ensures r.Err? ==> r.error == Error(NotFound, BookingMissing)
    {
      var i := BookingIndex(db.bookings, bookingId);
      if i.None? {
        return Err(Error(NotFound, BookingMissing));
      }
      return Ok(db.bookings[i.value]);
    }

    /** `cancelBooking`: any booking not already CANCELLED becomes CANCELLED,
        with who cancelled, when and why; its time is released. The
        cancellation notice that follows fails after the row is saved. */
    method CancelBooking(bookingId: Id, cancelledBy: string, reason: Option<string>, now: Instant) returns (r: Result<Booking>)
      requires db.Valid()
      modifies db`bookings
      ensures db.Valid()
      ensures match BookingIndex(old(db.bookings), bookingId)
              case None => r == Err(Error(NotFound, BookingMissing)) && db.bookings == old(db.bookings)
              case Some(i) =>
                if old(db.bookings)[i].status == Cancelled then
                  r == Err(Error(BadRequest, AlreadyCancelled)) && db.bookings == old(db.bookings)
                else
                  r == Err(NotificationCrash) &&
                  db.bookings == old(db.bookings)[i := CancelledBooking(old(db.bookings)[i], cancelledBy, reason, now)]
      ensures NoDoubleBooking(old(db.bookings)) ==> NoDoubleBooking(db.bookings)
    {
      var i := BookingIndex(db.bookings, bookingId);
      if i.None? {
        return Err(Error(NotFound, BookingMissing));
      }
      var b := db.bookings[i.value];
      if b.status == Cancelled {
        return Err(Error(BadRequest, AlreadyCancelled));
      }
      var c := CancelledBooking(b, cancelledBy, reason, now);
      ReleaseKeepsLedger(db.exceptions, db.bookings, i.value, c, b.stylistId, b.bookingDate, b.startTime, b.endTime);
      assert b in db.bookings;
      db.bookings := db.bookings[i.value := c];
      r := Err(NotificationCrash);
    }

    /** `rescheduleBooking`: a booking that exists and is not CANCELLED,
        whose new date and times pass validation against the table as it
        stands (the original still holding its time), becomes RESCHEDULED
        and a CONFIRMED booking pointing back to it is stored. The
        reschedule notice that follows fails after both rows are saved. */
    method RescheduleBooking(bookingId: Id, newDate: Day, newStart: Time, newEnd: Time, now: Instant)
      returns (r: Result<Booking>)
      requires db.Valid()
      modifies db`bookings, db`nextId
      ensures db.Valid()
      ensures match BookingIndex(old(db.bookings), bookingId)
              case None => r == Err(Error(NotFound, BookingMissing))
              case Some(i) =>
                var original := old(db.bookings)[i];
                var v := old(Validation(original.stylistId, newDate, newStart, newEnd, now));
                if original.status == Cancelled then r == Err(Error(BadRequest, CancelledNotReschedulable))
                else if v.Fail? then r == Err(v.error)
                else
                  r == Err(NotificationCrash) &&
                  db.bookings == old(db.bookings)[i := original.(status := Rescheduled)] +
                                 [RescheduledBooking(old(db.nextId), original, newDate, newStart, newEnd)]
      ensures r.Err?
      ensures r != Err(NotificationCrash) ==> db.bookings == old(db.bookings) && db.nextId == old(db.nextId)
      ensures NoDoubleBooking(old(db.bookings)) ==> NoDoubleBooking(db.bookings)
    {
      var i := BookingIndex(db.bookings, bookingId);
      if i.None? {
        return Err(Error(NotFound, BookingMissing));
      }
      var original := db.bookings[i.value];
      if original.status == Cancelled {
        return Err(Error(BadRequest, CancelledNotReschedulable));
      }
      var v := ValidateBookingAvailability(original.stylistId, newDate, newStart, newEnd, now);
      if v.Fail? {
        return Err(v.error);
      }
      var b := StoreRescheduled(i.value, newDate, newStart, newEnd);
      r := Err(NotificationCrash);
    }

    /** Marks the booking at index i RESCHEDULED and stores its CONFIRMED
        successor at the range the overlap test admitted. */
    method StoreRescheduled(i: nat, newDate: Day, newStart: Time, newEnd: Time) returns (b: Booking)
      requires db.Valid() && i < |db.bookings|
      requires Scheduling.IsSlotAvailable(db.exceptions, db.bookings, db.bookings[i].stylistId, newDate, newStart, newEnd)
      modifies db`bookings, db`nextId
      ensures db.Valid()
      ensures b == RescheduledBooking(old(db.nextId), old(db.bookings)[i], newDate, newStart, newEnd)
      ensures db.nextId == old(db.nextId) + 1
      ensures db.bookings == old(db.bookings)[i := old(db.bookings)[i].(status := Rescheduled)] + [b]
      ensures NoDoubleBooking(old(db.bookings)) ==> NoDoubleBooking(db.bookings)
    {
      var original := db.bookings[i];
      var marked := original.(status := Rescheduled);
      ReleaseKeepsLedger(db.exceptions, db.bookings, i, marked, original.stylistId, newDate, newStart, newEnd);
      assert original in db.bookings;
      db.bookings := db.bookings[i := marked];
      var id := db.Issue();
      b := RescheduledBooking(id, original, newDate, newStart, newEnd);
      if NoDoubleBooking(db.bookings) {
        AdmittedBookingKeepsLedger(db.exceptions, db.bookings, b);
      }
      db.bookings := db.bookings + [b];
    }

    /** `updateBooking`: any booking, to any status, with the status's
        timestamp and the fields the patch carries. */
    method UpdateBooking(bookingId: Id, patch: BookingPatch, now: Instant) returns (r: Result<Booking>)
      requires db.Valid()
      modifies db`bookings
      ensures db.Valid()
      ensures match BookingIndex(old(db.bookings), bookingId)
              case None => r == Err(Error(NotFound, BookingMissing)) && db.bookings == old(db.bookings)
              case Some(i) =>
                r == Ok(UpdatedBooking(old(db.bookings)[i], patch, now)) && db.bookings == old(db.bookings)[i := r.value]
    {
      var i := BookingIndex(db.bookings, bookingId);
      if i.None? {
        return Err(Error(NotFound, BookingMissing));
      }
      var b := db.bookings[i.value];
      var u := UpdatedBooking(b, patch, now);
      assert b in db.bookings;
      db.bookings := db.bookings[i.value := u];
      r := Ok(u);
    }

    // -------------------------------------------------------------------
    // Listings
    // -------------------------------------------------------------------

    /** `getStylistBookings`: the stylist's bookings, of one status when
        given, by date and then start time. */
    method GetStylistBookings(stylistId: Id, status: Option<BookingStatus>) returns (r: seq<Booking>)
      ensures Ordered(r)
      ensures forall b :: multiset(r)[b] ==
                if b.stylistId == stylistId && (status.None? || b.status == status.value) then multiset(db.bookings)[b] else 0
    {
      r := SortByDateTime(Matching(db.bookings, (b: Booking) => b.stylistId == stylistId && (status.None? || b.status == status.value)));
    }

    /** `getCustomerBookings`: the customer's bookings, of one status when
        given, by date and then start time. */
    method GetCustomerBookings(customerId: Id, status: Option<BookingStatus>) returns (r: seq<Booking>)
      ensures Ordered(r)
      ensures forall b :: multiset(r)[b] ==
                if b.customerId == customerId && (status.None? || b.status == status.value) then multiset(db.bookings)[b] else 0
    {
      r := SortByDateTime(Matching(db.bookings, (b: Booking) => b.customerId == customerId && (status.None? || b.status == status.value)));
    }
  }
}
