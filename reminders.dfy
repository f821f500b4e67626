/** `BookingReminderService`: the hourly sweep that texts customers a
    reminder of tomorrow's CONFIRMED bookings and stamps `reminderSentAt`,
    and the manual reminder for one booking. The clock gives the window
    [tomorrowStart, tomorrowEnd] and `now`; whether the SMS gateway accepted
    a message is the parameter `delivered`. */
module Reminders {
  import opened Common
  import opened Scheduling
  import opened Store

  /** A `date` column compared with a `Date`: its local midnight. */
  function DateInstant(date: Day): Instant {
    date * MsPerDay
  }

  /** The sweep's selection: the query `bookingDate > tomorrowStart` and
      CONFIRMED, then the filter `tomorrowStart <= bookingDate <= tomorrowEnd`
      with no reminder sent yet. */
  predicate DueForReminder(b: Booking, tomorrowStart: Instant, tomorrowEnd: Instant) {
    && DateInstant(b.bookingDate) > tomorrowStart
    && b.status == Confirmed
    && tomorrowStart <= DateInstant(b.bookingDate) <= tomorrowEnd
    && b.reminderSentAt.None?
  }

  /** One booking after the sweep: stamped when it was due and the message
      went out. */
  function Reminded(b: Booking, tomorrowStart: Instant, tomorrowEnd: Instant, now: Instant,
                    delivered: Booking -> bool): Booking
  {
    if DueForReminder(b, tomorrowStart, tomorrowEnd) && delivered(b) then b.(reminderSentAt := Some(now)) else b
  }

  /** The booking table after the sweep. */
  function Swept(bs: seq<Booking>, tomorrowStart: Instant, tomorrowEnd: Instant, now: Instant,
                 delivered: Booking -> bool): (r: seq<Booking>)
    ensures |r| == |bs|
    ensures forall i :: 0 <= i < |bs| ==> r[i].(reminderSentAt := bs[i].reminderSentAt) == bs[i]
    ensures forall i :: 0 <= i < |bs| ==>
              r[i].reminderSentAt ==
                if DueForReminder(bs[i], tomorrowStart, tomorrowEnd) && delivered(bs[i]) then Some(now)
                else bs[i].reminderSentAt
  {
    seq(|bs|, i requires 0 <= i < |bs| => Reminded(bs[i], tomorrowStart, tomorrowEnd, now, delivered))
  }

  /** A second sweep with the same window and gateway changes nothing: a
      stamped booking is no longer due, an undelivered one stays undelivered. */
  lemma SweepIdempotent(bs: seq<Booking>, tomorrowStart: Instant, tomorrowEnd: Instant, now: Instant,
                        delivered: Booking -> bool)
    ensures Swept(Swept(bs, tomorrowStart, tomorrowEnd, now, delivered), tomorrowStart, tomorrowEnd, now, delivered) ==
            Swept(bs, tomorrowStart, tomorrowEnd, now, delivered)
  {
    var once := Swept(bs, tomorrowStart, tomorrowEnd, now, delivered);
    var twice := Swept(once, tomorrowStart, tomorrowEnd, now, delivered);
    forall i | 0 <= i < |bs| ensures twice[i] == once[i] {
      if DueForReminder(bs[i], tomorrowStart, tomorrowEnd) && delivered(bs[i]) {
        assert !DueForReminder(once[i], tomorrowStart, tomorrowEnd);
      } else {
        assert once[i] == bs[i];
      }
    }
  }

  /** Stamping reminders moves no booking and changes no status, so the
      table stays free of double bookings. */
  lemma SweepKeepsLedger(bs: seq<Booking>, tomorrowStart: Instant, tomorrowEnd: Instant, now: Instant,
                         delivered: Booking -> bool)
    requires NoDoubleBooking(bs)
    ensures NoDoubleBooking(Swept(bs, tomorrowStart, tomorrowEnd, now, delivered))
  {
    var r := Swept(bs, tomorrowStart, tomorrowEnd, now, delivered);
    forall i | 0 <= i < |r| ensures r[i].status == bs[i].status && r[i].stylistId == bs[i].stylistId &&
                                    r[i].bookingDate == bs[i].bookingDate && r[i].startTime == bs[i].startTime &&
                                    r[i].endTime == bs[i].endTime {
      assert r[i].(reminderSentAt := bs[i].reminderSentAt) == bs[i];
    }
  }

  /** With the window the clock gives, local midnight of tomorrow to the
      last millisecond of tomorrow, the strict `bookingDate > tomorrowStart`
      of the query and the `bookingDate <= tomorrowEnd` of the filter leave
      no booking date, tomorrow's included. */
  lemma MidnightWindowExcludes(b: Booking, today: Day)
    ensures !DueForReminder(b, DateInstant(today + 1), DateInstant(today + 2) - 1)
  {
    if b.bookingDate <= today + 1 {
      assert DateInstant(b.bookingDate) <= DateInstant(today + 1);
    } else {
      assert DateInstant(b.bookingDate) >= DateInstant(today + 2);
    }
  }

  /** So the hourly sweep, run with that window, stamps nothing. */
  lemma MidnightSweepChangesNothing(bs: seq<Booking>, today: Day, tomorrowStart: Instant, tomorrowEnd: Instant,
                                    now: Instant, delivered: Booking -> bool)
    requires tomorrowStart == DateInstant(today + 1) && tomorrowEnd == DateInstant(today + 2) - 1
    ensures Swept(bs, tomorrowStart, tomorrowEnd, now, delivered) == bs
  {
    var r := Swept(bs, tomorrowStart, tomorrowEnd, now, delivered);
    forall i | 0 <= i < |bs| ensures r[i] == bs[i] {
      MidnightWindowExcludes(bs[i], today);
    }
  }

  class BookingReminderService {
    const db: Database

    constructor (db: Database)
      ensures this.db == db
    {
      this.db := db;
    }

    /** `sendBookingReminders`: every due booking is offered to the gateway
        in table order, and stamped with `now` when it was delivered. */
    method SendBookingReminders(tomorrowStart: Instant, tomorrowEnd: Instant, now: Instant, delivered: Booking -> bool)
      requires db.Valid()
      modifies db`bookings
      ensures db.Valid()
      ensures db.bookings == Swept(old(db.bookings), tomorrowStart, tomorrowEnd, now, delivered)
    {
      ghost var before := db.bookings;
      var i := 0;
      while i < |db.bookings|
        invariant 0 <= i <= |db.bookings| == |before|
        invariant forall k :: 0 <= k < i ==> db.bookings[k] == Reminded(before[k], tomorrowStart, tomorrowEnd, now, delivered)
        invariant forall k :: i <= k < |before| ==> db.bookings[k] == before[k]
        invariant db.Valid()
      {
        var b := db.bookings[i];
        if DueForReminder(b, tomorrowStart, tomorrowEnd) && delivered(b) {
          assert b in db.bookings;
          db.bookings := db.bookings[i := b.(reminderSentAt := Some(now))];
        }
        i := i + 1;
      }
      assert db.bookings == Swept(before, tomorrowStart, tomorrowEnd, now, delivered);
    }

    /** `sendManualReminder`: false for an unknown or not CONFIRMED booking;
        otherwise the reminder is sent whatever the date and whether or not
        one was sent before, the booking is stamped when it was delivered,
        and the answer is true even when it was not. */
    method SendManualReminder(bookingId: Id, now: Instant, delivered: bool) returns (ok: bool)
      requires db.Valid()
      modifies db`bookings
      ensures db.Valid()
      ensures match BookingIndex(old(db.bookings), bookingId)
              case None => !ok && db.bookings == old(db.bookings)
              case Some(i) =>
                if old(db.bookings)[i].status != Confirmed then !ok && db.bookings == old(db.bookings)
                else ok && db.bookings == if delivered then old(db.bookings)[i := old(db.bookings)[i].(reminderSentAt := Some(now))]
                                          else old(db.bookings)
    {
      var i := BookingIndex(db.bookings, bookingId);
      if i.None? {
        return false;
      }
      var b := db.bookings[i.value];
      if b.status != Confirmed {
        return false;
      }
      if delivered {
        assert b in db.bookings;
        db.bookings := db.bookings[i.value := b.(reminderSentAt := Some(now))];
      }
      return true;
    }
  }
}
