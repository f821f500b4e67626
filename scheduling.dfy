/** The read-only half of the booking engine (bookings.service.ts): the
    weekly schedule, date exceptions, the booking rows, the half-open overlap
    test, the slot walk and the ordered chain of booking checks. The
    state-changing half is the `BookingsService` class in module Bookings. */
module Scheduling {
  import opened Common

  const MinutesPerDay: int := 1440

  /** A wall-clock time "HH:MM" as minutes since midnight. Zero-padded
      "HH:MM" strings compare in the same order as these numbers. */
  type Time = t: int | 0 <= t < 1440

  /** `Date.getDay()`: 0 is Sunday, 6 is Saturday. */
  type Weekday = d: int | 0 <= d < 7

  /** A calendar date as a day number; its local midnight is `day * MsPerDay`. */
  type Day = int

  /** The pair of nullable columns `<day>Start` / `<day>End`. */
  datatype DayHours = DayHours(start: Option<Time>, end: Option<Time>)

  /** The fourteen weekday columns, indexed by `Weekday`. */
  type Week = w: seq<DayHours> | |w| == 7
    witness [DayHours(None, None), DayHours(None, None), DayHours(None, None), DayHours(None, None),
             DayHours(None, None), DayHours(None, None), DayHours(None, None)]

  datatype Availability = Availability(
    stylistId: Id,
    week: Week,
    slotDurationMinutes: int,
    bufferTimeMinutes: int,
    minimumNoticeMinutes: int,
    maxAdvanceDays: int,
    allowMultipleClients: bool)

  /** The ranges the availability form declares for its four numbers. */
  predicate InRanges(a: Availability) {
    && 15 <= a.slotDurationMinutes <= 480
    && 0 <= a.bufferTimeMinutes <= 120
    && 30 <= a.minimumNoticeMinutes <= 1440
    && 1 <= a.maxAdvanceDays <= 365
  }

  datatype StylistException = StylistException(
    id: Id,
    stylistId: Id,
    date: Day,
    startTime: Option<Time>,
    endTime: Option<Time>,
    reason: Option<string>,
    isRecurring: bool,
    recurringDayOfWeek: Option<int>)

  datatype BookingStatus = Pending | Confirmed | Cancelled | Completed | Rescheduled

  datatype Booking = Booking(
    id: Id,
    stylistId: Id,
    customerId: Id,
    bookingDate: Day,
    startTime: Time,
    endTime: Time,
    status: BookingStatus,
    depositAmount: Option<real>,
    totalAmount: Option<real>,
    customerNotes: Option<string>,
    stylistNotes: Option<string>,
    cancellationReason: Option<string>,
    cancelledBy: Option<string>,
    cancelledAt: Option<Instant>,
    rescheduledFrom: Option<Id>,
    confirmedAt: Option<Instant>,
    completedAt: Option<Instant>,
    reminderSentAt: Option<Instant>)

  const AvailabilityMissing := "Availability not found for this stylist"
  const NotWorkingDay := "Stylist does not work on this day"
  const NoticeTooShort := "Booking must be made at least the minimum notice in advance"
  const TooFarAhead := "Booking cannot be made more than the maximum days in advance"
  const SlotTaken := "Selected time slot is not available"

  // ---------------------------------------------------------------------
  // The overlap test (isSlotAvailable)
  // ---------------------------------------------------------------------

  /** Half-open intervals [aStart, aEnd) and [bStart, bEnd) intersect. */
  predicate Overlaps(aStart: int, aEnd: int, bStart: int, bEnd: int) {
    aStart < bEnd && aEnd > bStart
  }

  /** The rows `getExceptions(stylistId, date, date)` returns: the stylist's
      exceptions whose date lies between `date` and `date`. The recurrence
      columns play no part. */
  predicate ExceptionOn(x: StylistException, stylistId: Id, date: Day) {
    x.stylistId == stylistId && x.date == date
  }

  /** An exception with neither time blocks the whole day. */
  predicate FullDay(x: StylistException) {
    x.startTime.None? && x.endTime.None?
  }

  /** An exception with both times set blocks [startTime, endTime). */
  predicate BlocksRange(x: StylistException, start: int, end: int) {
    x.startTime.Some? && x.endTime.Some? && Overlaps(start, end, x.startTime.value, x.endTime.value)
  }

  /** PENDING and CONFIRMED bookings hold their time; the other statuses do not. */
  predicate Holding(b: Booking) {
    b.status == Pending || b.status == Confirmed
  }

  /** The rows of the two booking queries in isSlotAvailable. */
  predicate HoldsOn(b: Booking, stylistId: Id, date: Day) {
    b.stylistId == stylistId && b.bookingDate == date && Holding(b)
  }

  /** The loop over exceptions, returning false at the first full-day
      exception or partial exception overlapping [start, end). */
  function ExceptionsAllow(xs: seq<StylistException>, stylistId: Id, date: Day, start: int, end: int): (ok: bool)
    ensures ok <==> forall i :: 0 <= i < |xs| && ExceptionOn(xs[i], stylistId, date) ==>
                      !FullDay(xs[i]) && !BlocksRange(xs[i], start, end)
  {
    if |xs| == 0 then true
    else if ExceptionOn(xs[0], stylistId, date) && (FullDay(xs[0]) || BlocksRange(xs[0], start, end)) then false
    else ExceptionsAllow(xs[1..], stylistId, date, start, end)
  }

  /** The loop over the stylist's PENDING and CONFIRMED bookings on `date`,
      returning false at the first one overlapping [start, end). */
  function BookingsAllow(bs: seq<Booking>, stylistId: Id, date: Day, start: int, end: int): (ok: bool)
    ensures ok <==> forall i :: 0 <= i < |bs| && HoldsOn(bs[i], stylistId, date) ==>
                      !Overlaps(start, end, bs[i].startTime, bs[i].endTime)
  {
    if |bs| == 0 then true
    else if HoldsOn(bs[0], stylistId, date) && Overlaps(start, end, bs[0].startTime, bs[0].endTime) then false
    else BookingsAllow(bs[1..], stylistId, date, start, end)
  }

  /** `isSlotAvailable(stylistId, date, start, end)`: [start, end) is free
      exactly when no exception of that date is full-day, no exception of
      that date with both times overlaps it, and no PENDING or CONFIRMED
      booking of the stylist on that date overlaps it. */
  function IsSlotAvailable(xs: seq<StylistException>, bs: seq<Booking>, stylistId: Id, date: Day, start: int, end: int): bool
  {
    ExceptionsAllow(xs, stylistId, date, start, end) && BookingsAllow(bs, stylistId, date, start, end)
  }

  /** What `IsSlotAvailable` answers, in terms of the rows of the tables. */
  lemma SlotAvailableMeans(xs: seq<StylistException>, bs: seq<Booking>, stylistId: Id, date: Day, start: int, end: int)
    ensures IsSlotAvailable(xs, bs, stylistId, date, start, end) <==>
      && (forall x :: x in xs && ExceptionOn(x, stylistId, date) ==> !FullDay(x))
      && (forall x :: x in xs && ExceptionOn(x, stylistId, date) && x.startTime.Some? && x.endTime.Some? ==>
            !Overlaps(start, end, x.startTime.value, x.endTime.value))
      && (forall b :: b in bs && HoldsOn(b, stylistId, date) ==> !Overlaps(start, end, b.startTime, b.endTime))
  {
  }

  /** The rows of the two booking queries of `isSlotAvailable`: the
      stylist's PENDING bookings on the date, then the CONFIRMED ones. */
  function HeldRows(bs: seq<Booking>, stylistId: Id, date: Day): seq<Booking> {
    Matching(bs, (b: Booking) => b.stylistId == stylistId && b.bookingDate == date && b.status == Pending) +
    Matching(bs, (b: Booking) => b.stylistId == stylistId && b.bookingDate == date && b.status == Confirmed)
  }

  /** The two queries return exactly the bookings that hold their time on
      the date, so scanning their rows decides the booking half of the test. */
  lemma HeldRowsDecide(bs: seq<Booking>, stylistId: Id, date: Day, start: int, end: int)
    ensures BookingsAllow(bs, stylistId, date, start, end) <==>
            forall b :: b in HeldRows(bs, stylistId, date) ==> !Overlaps(start, end, b.startTime, b.endTime)
  {
    var held := HeldRows(bs, stylistId, date);
    forall b ensures b in held <==> b in bs && HoldsOn(b, stylistId, date) {
      assert b in held <==> b in multiset(held);
      assert b in bs <==> b in multiset(bs);
    }
  }

  /** CANCELLED, COMPLETED and RESCHEDULED bookings never block: a booking
      that does not hold its time can be added without changing any answer. */
  lemma {:induction false} NonHoldingNeverBlocks(xs: seq<StylistException>, bs: seq<Booking>, b: Booking,
                                                 stylistId: Id, date: Day, start: int, end: int)
    requires !Holding(b)
    ensures IsSlotAvailable(xs, bs + [b], stylistId, date, start, end) == IsSlotAvailable(xs, bs, stylistId, date, start, end)
  {
    SlotAvailableMeans(xs, bs + [b], stylistId, date, start, end);
    SlotAvailableMeans(xs, bs, stylistId, date, start, end);
    assert forall c :: c in bs + [b] && HoldsOn(c, stylistId, date) ==> c in bs;
  }

  /** An exception with exactly one of its two times set is ignored. */
  lemma HalfSetExceptionIgnored(xs: seq<StylistException>, bs: seq<Booking>, x: StylistException,
                                stylistId: Id, date: Day, start: int, end: int)
    requires x.startTime.Some? != x.endTime.Some?
    ensures IsSlotAvailable(xs + [x], bs, stylistId, date, start, end) == IsSlotAvailable(xs, bs, stylistId, date, start, end)
  {
    SlotAvailableMeans(xs + [x], bs, stylistId, date, start, end);
    SlotAvailableMeans(xs, bs, stylistId, date, start, end);
    assert forall y :: y in xs + [x] <==> y in xs || y == x;
  }

  // ---------------------------------------------------------------------
  // The slot walk (getAvailableSlots)
  // ---------------------------------------------------------------------

  /** The slot end as `toTimeString().slice(0, 5)` prints the cursor plus
      the slot duration: it wraps past midnight and is not clipped to the
      end of the working window. */
  function SlotEnd(t: Time, duration: nat): (e: Time)
    ensures t + duration < MinutesPerDay ==> e == t + duration
    ensures MinutesPerDay <= t + duration < 2 * MinutesPerDay ==> e == t + duration - MinutesPerDay
  {
    (t + duration) % MinutesPerDay
  }

  /** The test the loop applies to the slot starting at t. */
  function SlotIsFree(xs: seq<StylistException>, bs: seq<Booking>, stylistId: Id, date: Day, duration: nat): Time -> bool {
    (t: Time) => IsSlotAvailable(xs, bs, stylistId, date, t, SlotEnd(t, duration))
  }

  /** The slots the loop emits from `cursor` on: every `step` minutes while
      the cursor is before `end`, keeping the starts that pass `free`. */
  function SlotsFrom(cursor: nat, end: Time, step: nat, free: Time -> bool): seq<Time>
    requires step > 0
    decreases end - cursor
  {
    if cursor >= end then []
    else (if free(cursor) then [cursor as Time] else []) + SlotsFrom(cursor + step, end, step, free)
  }

  /** d is a whole number of steps: d == k * step for some k >= 0. */
  predicate OnGrid(d: int, step: nat)
    requires step > 0
    decreases if d < 0 then 0 else d
  {
    d == 0 || (d >= step && OnGrid(d - step, step))
  }

  /** A start is emitted exactly when it lies in [cursor, end), is a whole
      number of steps after the cursor, and passes `free`. */
  lemma {:induction false} SlotsFromMembers(cursor: nat, end: Time, step: nat, free: Time -> bool, t: int)
    requires step > 0
    ensures t in SlotsFrom(cursor, end, step, free) <==> cursor <= t < end && OnGrid(t - cursor, step) && free(t)
    decreases end - cursor
  {
    if cursor < end {
      var here := if free(cursor) then [cursor as Time] else [];
      var rest := SlotsFrom(cursor + step, end, step, free);
      assert SlotsFrom(cursor, end, step, free) == here + rest;
      SlotsFromMembers(cursor + step, end, step, free, t);
      assert t - cursor >= step ==> (OnGrid(t - cursor, step) <==> OnGrid(t - (cursor + step), step));
    }
  }

  /** Being on the grid is having no remainder. */
  lemma {:induction false} OnGridMod(d: int, step: nat)
    requires step > 0
    ensures OnGrid(d, step) <==> d >= 0 && d % step == 0
    decreases if d < 0 then 0 else d
  {
    if d >= step {
      OnGridMod(d - step, step);
      ModShift(d - step, step);
    } else if 0 < d {
      assert d % step == d by {
        assert d == 0 * step + d;
      }
    }
  }

  /** Adding one step does not change the remainder. */
  lemma ModShift(x: int, s: int)
    requires s > 0
    ensures (x + s) % s == x % s
  {
    var q, r := x / s, x % s;
    var q', r' := (x + s) / s, (x + s) % s;
    var k := q + 1 - q';
    assert k * s == r' - r by {
      assert x + s == (q + 1) * s + r;
      assert x + s == q' * s + r';
      assert (q + 1) * s - q' * s == k * s;
    }
    if k >= 1 {
      MulAtLeast(k, s);
    }
  }

  lemma MulAtLeast(k: int, s: int)
    requires s > 0 && k >= 1
    ensures k * s >= s
  {
    if k > 1 {
      MulAtLeast(k - 1, s);
      assert k * s == (k - 1) * s + s;
    }
  }

  /** The emitted starts are strictly ascending and each is at or after the cursor. */
  lemma {:induction false} SlotsFromAscending(cursor: nat, end: Time, step: nat, free: Time -> bool)
    requires step > 0
    ensures forall i :: 0 <= i < |SlotsFrom(cursor, end, step, free)| ==> cursor <= SlotsFrom(cursor, end, step, free)[i]
    ensures forall i, j :: 0 <= i < j < |SlotsFrom(cursor, end, step, free)| ==>
              SlotsFrom(cursor, end, step, free)[i] < SlotsFrom(cursor, end, step, free)[j]
    decreases end - cursor
  {
    if cursor < end {
      var here := if free(cursor) then [cursor as Time] else [];
      var rest := SlotsFrom(cursor + step, end, step, free);
      var r := here + rest;
      assert SlotsFrom(cursor, end, step, free) == r;
      SlotsFromAscending(cursor + step, end, step, free);
      assert forall i :: 0 <= i < |rest| ==> cursor < rest[i];
      assert forall i :: |here| <= i < |r| ==> r[i] == rest[i - |here|];
    }
  }

  /** The working window of `weekday`, when both of its times are set. */
  function Window(a: Availability, weekday: Weekday): Option<(Time, Time)> {
    var h := a.week[weekday];
    if h.start.Some? && h.end.Some? then Some((h.start.value, h.end.value)) else None
  }

  /** `getAvailableSlots(stylistId, date)` for a date falling on `weekday`,
      given the stylist's availability row (if any), the exception table and
      the booking table. */
  function AvailableSlots(avail: Option<Availability>, xs: seq<StylistException>, bs: seq<Booking>,
                          stylistId: Id, date: Day, weekday: Weekday): Result<seq<Time>>
    requires avail.Some? ==> InRanges(avail.value)
  {
    if avail.None? then Err(Error(NotFound, AvailabilityMissing))
    else
      var a := avail.value;
      match Window(a, weekday)
      case None => Ok([])
      case Some((start, end)) =>
        if FirstIndex(xs, x => ExceptionOn(x, stylistId, date) && FullDay(x)).Some? then Ok([])
        else Ok(SlotsFrom(start, end, a.slotDurationMinutes + a.bufferTimeMinutes,
                          SlotIsFree(xs, bs, stylistId, date, a.slotDurationMinutes)))
  }

  /** The empty and failing cases: NotFound without an availability row; no
      slots on a weekday whose start or end is unset, nor on a date with a
      full-day exception. */
  lemma AvailableSlotsEmptyCases(avail: Option<Availability>, xs: seq<StylistException>, bs: seq<Booking>,
                                 stylistId: Id, date: Day, weekday: Weekday)
    requires avail.Some? ==> InRanges(avail.value)
    ensures avail.None? ==> AvailableSlots(avail, xs, bs, stylistId, date, weekday).Err?
                            && AvailableSlots(avail, xs, bs, stylistId, date, weekday).error.kind == NotFound
    ensures avail.Some? && (avail.value.week[weekday].start.None? || avail.value.week[weekday].end.None?) ==>
              AvailableSlots(avail, xs, bs, stylistId, date, weekday) == Ok([])
    ensures avail.Some? && (exists x :: x in xs && ExceptionOn(x, stylistId, date) && FullDay(x)) ==>
              AvailableSlots(avail, xs, bs, stylistId, date, weekday) == Ok([])
  {
    if avail.Some? && Window(avail.value, weekday).Some? && exists x :: x in xs && ExceptionOn(x, stylistId, date) && FullDay(x) {
      var x :| x in xs && ExceptionOn(x, stylistId, date) && FullDay(x);
      var i :| 0 <= i < |xs| && xs[i] == x;
      assert FirstIndex(xs, x => ExceptionOn(x, stylistId, date) && FullDay(x)).Some?;
    }
  }

  /** The emitted slots on a working day: a start t is emitted exactly when
      dayStart <= t < dayEnd, t = dayStart + k * (slotDuration + buffer), and
      the slot [t, SlotEnd(t)) is free; the starts are strictly ascending.
      The slot end is not required to lie before dayEnd. */
  lemma AvailableSlotsOnWorkingDay(a: Availability, xs: seq<StylistException>, bs: seq<Booking>,
                                   stylistId: Id, date: Day, weekday: Weekday)
    requires InRanges(a)
    requires Window(a, weekday).Some?
    ensures var (dayStart, dayEnd) := Window(a, weekday).value;
            var step := a.slotDurationMinutes + a.bufferTimeMinutes;
            var r := AvailableSlots(Some(a), xs, bs, stylistId, date, weekday);
            && r.Ok?
            && (forall i, j :: 0 <= i < j < |r.value| ==> r.value[i] < r.value[j])
            && (forall t: int :: t in r.value <==>
                  && dayStart <= t < dayEnd
                  && (t - dayStart) % step == 0
                  && IsSlotAvailable(xs, bs, stylistId, date, t, SlotEnd(t, a.slotDurationMinutes)))
  {
    var (dayStart, dayEnd) := Window(a, weekday).value;
    var step := a.slotDurationMinutes + a.bufferTimeMinutes;
    var free := SlotIsFree(xs, bs, stylistId, date, a.slotDurationMinutes);
    match FirstIndex(xs, x => ExceptionOn(x, stylistId, date) && FullDay(x))
    case Some(k) =>
      FullDayBlocksEverySlot(xs, bs, stylistId, date, xs[k], a.slotDurationMinutes);
    case None =>
      SlotsFromAscending(dayStart, dayEnd, step, free);
      forall t: int ensures t in SlotsFrom(dayStart, dayEnd, step, free) <==>
                  dayStart <= t < dayEnd && (t - dayStart) % step == 0 && free(t) {
        SlotsFromMembers(dayStart, dayEnd, step, free, t);
        OnGridMod(t - dayStart, step);
      }
  }

  /** One step of the slot walk: the emitted starts so far, then the walk
      from the cursor, are the starts with the cursor's decided, then the
      walk from the next step. */
  lemma SlotsFromStep(acc: seq<Time>, cursor: nat, end: Time, step: nat, free: Time -> bool)
    requires step > 0 && cursor < end
    ensures acc + SlotsFrom(cursor, end, step, free) ==
            (if free(cursor) then acc + [cursor as Time] else acc) + SlotsFrom(cursor + step, end, step, free)
  {
    var rest := SlotsFrom(cursor + step, end, step, free);
    if free(cursor) {
      assert acc + ([cursor as Time] + rest) == (acc + [cursor as Time]) + rest;
    } else {
      assert acc + ([] + rest) == acc + rest;
    }
  }

  /** A full-day exception leaves no slot of that date free. */
  lemma FullDayBlocksEverySlot(xs: seq<StylistException>, bs: seq<Booking>, stylistId: Id, date: Day,
                               x: StylistException, duration: nat)
    requires x in xs && ExceptionOn(x, stylistId, date) && FullDay(x)
    ensures forall t: Time :: !IsSlotAvailable(xs, bs, stylistId, date, t, SlotEnd(t, duration))
  {
  }

  // ---------------------------------------------------------------------
  // The ordered booking checks (validateBookingAvailability)
  // ---------------------------------------------------------------------

  /** `new Date(`${bookingDate}T${startTime}`).getTime()` on the local clock. */
  function StartInstant(date: Day, start: Time): Instant {
    date * MsPerDay + start * MsPerMinute
  }

  /** `(bookingDateTime.getTime() - now.getTime()) / (1000 * 60)`. */
  function NoticeMinutes(date: Day, start: Time, now: Instant): real {
    (StartInstant(date, start) - now) as real / 60000.0
  }

  /** `Math.ceil`. */
  function Ceil(x: real): int {
    -((-x).Floor)
  }

  /** `Math.ceil((bookingDateTime.getTime() - now.getTime()) / (1000 * 60 * 60 * 24))`. */
  function AdvanceDays(date: Day, start: Time, now: Instant): int {
    Ceil((StartInstant(date, start) - now) as real / 86400000.0)
  }

  /** `validateBookingAvailability` for a date falling on `weekday`: the
      checks run in the source's order and the first failing one decides. */
  function ValidateBooking(avail: Option<Availability>, xs: seq<StylistException>, bs: seq<Booking>,
                           stylistId: Id, date: Day, weekday: Weekday, start: Time, end: Time, now: Instant): Outcome
  {
    if avail.None? then Fail(Error(NotFound, AvailabilityMissing))
    else
      var a := avail.value;
      if Window(a, weekday).None? then Fail(Error(BadRequest, NotWorkingDay))
      else if NoticeMinutes(date, start, now) < a.minimumNoticeMinutes as real then Fail(Error(BadRequest, NoticeTooShort))
      else if AdvanceDays(date, start, now) > a.maxAdvanceDays then Fail(Error(BadRequest, TooFarAhead))
      else if !IsSlotAvailable(xs, bs, stylistId, date, start, end) then Fail(Error(Conflict, SlotTaken))
      else Pass
  }

  /** `Math.ceil(x) > n` exactly when `x > n`. */
  lemma CeilAbove(x: real, n: int)
    ensures Ceil(x) > n <==> x > n as real
  {
    var f := (-x).Floor;
    assert f as real <= -x < f as real + 1.0;
  }

  /** The chain of checks in integer milliseconds: the lead time
      start - now must be at least minimumNotice minutes (equality passes)
      and at most maxAdvanceDays whole days; the order of the failures is
      NotFound, not a working day, notice, advance, conflict. */
  lemma ValidateBookingChain(avail: Option<Availability>, xs: seq<StylistException>, bs: seq<Booking>,
                             stylistId: Id, date: Day, weekday: Weekday, start: Time, end: Time, now: Instant)
    ensures ValidateBooking(avail, xs, bs, stylistId, date, weekday, start, end, now) ==
      if avail.None? then Fail(Error(NotFound, AvailabilityMissing))
      else if Window(avail.value, weekday).None? then Fail(Error(BadRequest, NotWorkingDay))
      else if StartInstant(date, start) - now < avail.value.minimumNoticeMinutes * MsPerMinute then
        Fail(Error(BadRequest, NoticeTooShort))
      else if StartInstant(date, start) - now > avail.value.maxAdvanceDays * MsPerDay then
        Fail(Error(BadRequest, TooFarAhead))
      else if !IsSlotAvailable(xs, bs, stylistId, date, start, end) then Fail(Error(Conflict, SlotTaken))
      else Pass
  {
    if avail.Some? {
      var a := avail.value;
      var lead := StartInstant(date, start) - now;
      assert NoticeMinutes(date, start, now) < a.minimumNoticeMinutes as real
             <==> lead < a.minimumNoticeMinutes * MsPerMinute;
      CeilAbove(lead as real / 86400000.0, a.maxAdvanceDays);
      assert lead as real / 86400000.0 > a.maxAdvanceDays as real <==> lead > a.maxAdvanceDays * MsPerDay;
    }
  }

  /** A range overlapping a PENDING or CONFIRMED booking of the same stylist
      and date is refused, including the booking being rescheduled itself:
      the scan does not leave the original out. */
  lemma HoldingBookingRefusesOverlap(avail: Option<Availability>, xs: seq<StylistException>, bs: seq<Booking>,
                                     b: Booking, weekday: Weekday, start: Time, end: Time, now: Instant)
    requires b in bs && Holding(b)
    requires Overlaps(start, end, b.startTime, b.endTime)
    ensures ValidateBooking(avail, xs, bs, b.stylistId, b.bookingDate, weekday, start, end, now).Fail?
  {
  }

  // ---------------------------------------------------------------------
  // The booking ledger: no two holding bookings overlap
  // ---------------------------------------------------------------------

  /** For one stylist and date, no two PENDING or CONFIRMED bookings have
      overlapping [startTime, endTime). */
  predicate NoDoubleBooking(bs: seq<Booking>) {
    forall i, j ::
      (0 <= i < |bs| && 0 <= j < |bs| && i != j && Holding(bs[i]) && Holding(bs[j]) &&
       bs[i].stylistId == bs[j].stylistId && bs[i].bookingDate == bs[j].bookingDate) ==>
      !Overlaps(bs[i].startTime, bs[i].endTime, bs[j].startTime, bs[j].endTime)
  }

  /** A booking admitted by the overlap test keeps the ledger free of double bookings. */
  lemma AdmittedBookingKeepsLedger(xs: seq<StylistException>, bs: seq<Booking>, b: Booking)
    requires NoDoubleBooking(bs)
    requires IsSlotAvailable(xs, bs, b.stylistId, b.bookingDate, b.startTime, b.endTime)
    ensures NoDoubleBooking(bs + [b])
  {
    var r := bs + [b];
    forall i, j | 0 <= i < |r| && 0 <= j < |r| && i != j && Holding(r[i]) && Holding(r[j]) &&
                  r[i].stylistId == r[j].stylistId && r[i].bookingDate == r[j].bookingDate
      ensures !Overlaps(r[i].startTime, r[i].endTime, r[j].startTime, r[j].endTime)
    {
      if i == |bs| {
        assert r[j] in bs && HoldsOn(r[j], b.stylistId, b.bookingDate);
      } else if j == |bs| {
        assert r[i] in bs && HoldsOn(r[i], b.stylistId, b.bookingDate);
      }
    }
  }

  /** Replacing a booking by one that no longer holds its time (cancelled,
      rescheduled) keeps the ledger free of double bookings and frees no
      less than before. */
  lemma ReleaseKeepsLedger(xs: seq<StylistException>, bs: seq<Booking>, i: nat, c: Booking,
                           stylistId: Id, date: Day, start: int, end: int)
    requires i < |bs| && !Holding(c)
    ensures NoDoubleBooking(bs) ==> NoDoubleBooking(bs[i := c])
    ensures IsSlotAvailable(xs, bs, stylistId, date, start, end) ==> IsSlotAvailable(xs, bs[i := c], stylistId, date, start, end)
  {
    forall b | b in bs[i := c] && HoldsOn(b, stylistId, date) ensures b in bs {
      var k :| 0 <= k < |bs| && bs[i := c][k] == b;
      assert k != i;
    }
  }

  /** Booking a free slot and then cancelling that booking makes the slot
      free again: cancelled bookings do not block. */
  lemma CancelRestoresAvailability(xs: seq<StylistException>, bs: seq<Booking>, b: Booking, c: Booking,
                                   stylistId: Id, date: Day, start: int, end: int)
    requires c.status == Cancelled
    ensures IsSlotAvailable(xs, (bs + [b])[|bs| := c], stylistId, date, start, end) ==
            IsSlotAvailable(xs, bs, stylistId, date, start, end)
  {
    assert (bs + [b])[|bs| := c] == bs + [c];
    NonHoldingNeverBlocks(xs, bs, c, stylistId, date, start, end);
  }

  // ---------------------------------------------------------------------
  // updateBooking: handleStatusChange followed by Object.assign
  // ---------------------------------------------------------------------

  /** The fields an update may carry; absent fields are `None`. */
  datatype BookingPatch = BookingPatch(
    status: Option<BookingStatus>,
    stylistNotes: Option<string>,
    cancellationReason: Option<string>,
    cancelledBy: Option<string>,
    depositAmount: Option<real>,
    totalAmount: Option<real>)

  function Or<T>(o: Option<T>, keep: T): T {
    if o.Some? then o.value else keep
  }

  /** `handleStatusChange`: stamps the time of the new status; a change to
      CANCELLED copies who cancelled and why from the patch. An absent value
      is an `undefined` property, which `save` leaves as stored. */
  function StampStatus(b: Booking, status: BookingStatus, patch: BookingPatch, now: Instant): Booking {
    match status
    case Confirmed => b.(confirmedAt := Some(now))
    case Completed => b.(completedAt := Some(now))
    case Cancelled => b.(cancelledAt := Some(now), cancelledBy := OrOpt(patch.cancelledBy, b.cancelledBy),
                         cancellationReason := OrOpt(patch.cancellationReason, b.cancellationReason))
    case _ => b
  }

  /** `updateBooking`'s new row. Any target status is accepted, from any
      status; the booking's parties, date and times never change; the
      timestamps of the new status are set. */
  function UpdatedBooking(b: Booking, patch: BookingPatch, now: Instant): (r: Booking)
    ensures r.id == b.id && r.stylistId == b.stylistId && r.customerId == b.customerId
    ensures r.bookingDate == b.bookingDate && r.startTime == b.startTime && r.endTime == b.endTime
    ensures r.rescheduledFrom == b.rescheduledFrom && r.reminderSentAt == b.reminderSentAt
    ensures r.status == Or(patch.status, b.status)
    ensures patch.status == Some(Confirmed) ==> r.confirmedAt == Some(now)
    ensures patch.status == Some(Completed) ==> r.completedAt == Some(now)
    ensures patch.status == Some(Cancelled) ==> r.cancelledAt == Some(now)
    ensures patch.status != Some(Cancelled) ==> r.cancelledAt == b.cancelledAt
    ensures patch.status != Some(Confirmed) ==> r.confirmedAt == b.confirmedAt
    ensures patch.status != Some(Completed) ==> r.completedAt == b.completedAt
    ensures r.cancelledBy == OrOpt(patch.cancelledBy, b.cancelledBy)
    ensures r.cancellationReason == OrOpt(patch.cancellationReason, b.cancellationReason)
  {
    var stamped := if patch.status.Some? then StampStatus(b, patch.status.value, patch, now) else b;
    stamped.(
      status := Or(patch.status, stamped.status),
      stylistNotes := OrOpt(patch.stylistNotes, stamped.stylistNotes),
      cancellationReason := OrOpt(patch.cancellationReason, stamped.cancellationReason),
      cancelledBy := OrOpt(patch.cancelledBy, stamped.cancelledBy),
      depositAmount := OrOpt(patch.depositAmount, stamped.depositAmount),
      totalAmount := OrOpt(patch.totalAmount, stamped.totalAmount))
  }

  /** Because any target status is accepted, an update can put a cancelled
      booking back to CONFIRMED over a booking that took its place: the
      ledger then holds two overlapping bookings. */
  lemma UpdateCanDoubleBook()
    ensures exists bs: seq<Booking>, i: nat, patch: BookingPatch, now: Instant ::
              i < |bs| && NoDoubleBooking(bs) && !NoDoubleBooking(bs[i := UpdatedBooking(bs[i], patch, now)])
  {
    var old1 := Booking(1, 7, 8, 100, 600, 660, Cancelled, None, None, None, None, None, None, None, None, None, None, None);
    var new2 := old1.(id := 2, status := Confirmed);
    var bs := [old1, new2];
    var patch := BookingPatch(Some(Confirmed), None, None, None, None, None);
    var u := UpdatedBooking(old1, patch, 0);
    assert bs[0 := u][0] == u && bs[0 := u][1] == new2;
    assert Holding(u) && Holding(new2) && Overlaps(u.startTime, u.endTime, new2.startTime, new2.endTime);
    assert !NoDoubleBooking(bs[0 := u]);
    assert NoDoubleBooking(bs) by {
      assert !Holding(bs[0]);
    }
    assert 0 < |bs| && NoDoubleBooking(bs) && !NoDoubleBooking(bs[0 := UpdatedBooking(bs[0], patch, 0)]);
  }

  // ---------------------------------------------------------------------
  // Listings: ORDER BY bookingDate ASC, startTime ASC
  // ---------------------------------------------------------------------

  /** `a` may come before `b` in a listing. */
  predicate NotAfter(a: Booking, b: Booking) {
    a.bookingDate < b.bookingDate || (a.bookingDate == b.bookingDate && a.startTime <= b.startTime)
  }

  predicate Ordered(bs: seq<Booking>) {
    forall i, j :: 0 <= i < j < |bs| ==> NotAfter(bs[i], bs[j])
  }

  /** The rows a where-condition keeps, each as often as in the table. */
  function Matching(bs: seq<Booking>, keep: Booking -> bool): (r: seq<Booking>)
    ensures forall b :: multiset(r)[b] == if keep(b) then multiset(bs)[b] else 0
  {
    if |bs| == 0 then []
    else
      assert bs == [bs[0]] + bs[1..];
      (if keep(bs[0]) then [bs[0]] else []) + Matching(bs[1..], keep)
  }

  function InsertOrdered(b: Booking, bs: seq<Booking>): (r: seq<Booking>)
    requires Ordered(bs)
    ensures Ordered(r)
    ensures multiset(r) == multiset(bs) + multiset{b}
  {
    if |bs| == 0 then [b]
    else if NotAfter(b, bs[0]) then [b] + bs
    else
      var rest := InsertOrdered(b, bs[1..]);
      assert bs == [bs[0]] + bs[1..];
      forall y | y in rest ensures NotAfter(bs[0], y) {
        assert y in multiset(rest);
        if y != b {
          assert y in multiset(bs[1..]);
        }
      }
      [bs[0]] + rest
  }

  /** The listing order: sorted by date and start time, the same rows. */
  function SortByDateTime(bs: seq<Booking>): (r: seq<Booking>)
    ensures Ordered(r)
    ensures multiset(r) == multiset(bs)
  {
    if |bs| == 0 then []
    else
      assert bs == [bs[0]] + bs[1..];
      InsertOrdered(bs[0], SortByDateTime(bs[1..]))
  }

  // ---------------------------------------------------------------------
  // Calendar and the availability row (setAvailability / getAvailability)
  // ---------------------------------------------------------------------

  /** `new Date(date).getDay()` of a local calendar day, counted from
      1 January 1970, a Thursday; 0 is Sunday. */
  function WeekdayOf(date: Day): Weekday {
    (date + 4) % 7
  }

  /** The form's two times of a weekday. The columns are nullable, so an
      explicit `null` clears a time and with it the working day. */
  datatype DayPatch = DayPatch(start: Field<Time>, end: Field<Time>)

  type WeekPatch = w: seq<DayPatch> | |w| == 7
    witness [DayPatch(Absent, Absent), DayPatch(Absent, Absent), DayPatch(Absent, Absent), DayPatch(Absent, Absent),
             DayPatch(Absent, Absent), DayPatch(Absent, Absent), DayPatch(Absent, Absent)]

  /** The availability form: every field optional. */
  datatype AvailabilityPatch = AvailabilityPatch(
    week: WeekPatch,
    slotDurationMinutes: Option<int>,
    bufferTimeMinutes: Option<int>,
    minimumNoticeMinutes: Option<int>,
    maxAdvanceDays: Option<int>,
    allowMultipleClients: Option<bool>)

  /** The ranges the form declares for the numbers it carries. */
  predicate PatchInRanges(p: AvailabilityPatch) {
    && (p.slotDurationMinutes.Some? ==> 15 <= p.slotDurationMinutes.value <= 480)
    && (p.bufferTimeMinutes.Some? ==> 0 <= p.bufferTimeMinutes.value <= 120)
    && (p.minimumNoticeMinutes.Some? ==> 30 <= p.minimumNoticeMinutes.value <= 1440)
    && (p.maxAdvanceDays.Some? ==> 1 <= p.maxAdvanceDays.value <= 365)
  }

  /** A new row as the column defaults complete it: no working days, 60-minute
      slots, 15 minutes of buffer, 120 minutes of notice, 90 days ahead. */
  function DefaultAvailability(stylistId: Id): (a: Availability)
    ensures InRanges(a)
    ensures forall d: Weekday :: Window(a, d).None?
  {
    Availability(stylistId, [DayHours(None, None), DayHours(None, None), DayHours(None, None), DayHours(None, None),
                             DayHours(None, None), DayHours(None, None), DayHours(None, None)],
                 60, 15, 120, 90, true)
  }

  /** `Object.assign(availability, dto)`: the fields present overwrite. */
  function Patched(a: Availability, p: AvailabilityPatch): Availability {
    var week: Week := seq(7, d requires 0 <= d < 7 =>
                        DayHours(Assigned(p.week[d].start, a.week[d].start), Assigned(p.week[d].end, a.week[d].end)));
    Availability(a.stylistId, week,
                 Or(p.slotDurationMinutes, a.slotDurationMinutes),
                 Or(p.bufferTimeMinutes, a.bufferTimeMinutes),
                 Or(p.minimumNoticeMinutes, a.minimumNoticeMinutes),
                 Or(p.maxAdvanceDays, a.maxAdvanceDays),
                 Or(p.allowMultipleClients, a.allowMultipleClients))
  }

  /** The stylist's availability row: `findOne({ where: { stylistId } })`. */
  function AvailabilityOf(rows: seq<Availability>, stylistId: Id): (r: Option<Availability>)
    ensures r.Some? ==> r.value in rows && r.value.stylistId == stylistId
    ensures r.None? <==> forall a :: a in rows ==> a.stylistId != stylistId
  {
    match FirstIndex(rows, (a: Availability) => a.stylistId == stylistId)
    case None => None
    case Some(i) => Some(rows[i])
  }

  /** The table after `setAvailability(stylistId, p)`: the stylist's first
      row merged with the patch, or a new row from the defaults. */
  function StoreAvailability(rows: seq<Availability>, stylistId: Id, p: AvailabilityPatch): seq<Availability> {
    match FirstIndex(rows, (a: Availability) => a.stylistId == stylistId)
    case None => rows + [Patched(DefaultAvailability(stylistId), p)]
    case Some(i) => rows[i := Patched(rows[i], p)]
  }

  /** A patch within the form's ranges keeps a row within them. */
  lemma PatchedInRanges(a: Availability, p: AvailabilityPatch)
    requires InRanges(a) && PatchInRanges(p)
    ensures InRanges(Patched(a, p))
  {
  }

  /** A weekday after the form: a `null` time makes it a day off, two
      times make it a working day with exactly those hours, and an absent
      pair keeps the stored hours. */
  lemma PatchedWeekday(a: Availability, p: AvailabilityPatch, d: Weekday)
    ensures p.week[d].start.Null? || p.week[d].end.Null? ==> Window(Patched(a, p), d).None?
    ensures p.week[d].start.Given? && p.week[d].end.Given? ==>
              Window(Patched(a, p), d) == Some((p.week[d].start.value, p.week[d].end.value))
    ensures p.week[d] == DayPatch(Absent, Absent) ==> Window(Patched(a, p), d) == Window(a, d)
  {
  }

  /** Applying the same patch twice is applying it once. */
  lemma PatchedIdempotent(a: Availability, p: AvailabilityPatch)
    ensures Patched(Patched(a, p), p) == Patched(a, p)
  {
    assert Patched(Patched(a, p), p).week == Patched(a, p).week;
  }

  /** After `setAvailability` the stylist's row reads back as the patched
      row (or the patched defaults), and every other stylist reads back what
      was stored before. */
  lemma StoreAvailabilityReadsBack(rows: seq<Availability>, stylistId: Id, p: AvailabilityPatch, other: Id)
    requires other != stylistId
    ensures AvailabilityOf(StoreAvailability(rows, stylistId, p), stylistId) ==
            Some(Patched(if AvailabilityOf(rows, stylistId).Some? then AvailabilityOf(rows, stylistId).value
                         else DefaultAvailability(stylistId), p))
    ensures AvailabilityOf(StoreAvailability(rows, stylistId, p), other) == AvailabilityOf(rows, other)
  {
    var mine := (a: Availability) => a.stylistId == stylistId;
    var theirs := (a: Availability) => a.stylistId == other;
    var rows' := StoreAvailability(rows, stylistId, p);
    match FirstIndex(rows, mine)
    case None =>
      AppendFirst(rows, Patched(DefaultAvailability(stylistId), p), mine);
      AppendFirst(rows, Patched(DefaultAvailability(stylistId), p), theirs);
    case Some(i) =>
      AgreeingFirst(rows, rows', mine);
      AgreeingFirst(rows, rows', theirs);
  }

  /** Tables of one length on which a where-condition agrees row by row
      have the same first match. */
  lemma AgreeingFirst<T>(rows: seq<T>, rows': seq<T>, where: T -> bool)
    requires |rows| == |rows'|
    requires forall k :: 0 <= k < |rows| ==> where(rows[k]) == where(rows'[k])
    ensures FirstIndex(rows, where) == FirstIndex(rows', where)
  {
  }

  /** The first match in a table with one row appended. */
  lemma {:induction false} AppendFirst<T>(rows: seq<T>, x: T, where: T -> bool)
    ensures FirstIndex(rows + [x], where) ==
            if FirstIndex(rows, where).Some? then FirstIndex(rows, where)
            else if where(x) then Some(|rows|) else None
  {
    if |rows| > 0 && !where(rows[0]) {
      assert (rows + [x])[1..] == rows[1..] + [x];
      AppendFirst(rows[1..], x, where);
    }
  }

  /** Saving the same form twice is saving it once. */
  lemma StoreAvailabilityIdempotent(rows: seq<Availability>, stylistId: Id, p: AvailabilityPatch)
    ensures StoreAvailability(StoreAvailability(rows, stylistId, p), stylistId, p) == StoreAvailability(rows, stylistId, p)
  {
    var mine := (a: Availability) => a.stylistId == stylistId;
    var rows' := StoreAvailability(rows, stylistId, p);
    match FirstIndex(rows, mine)
    case None =>
      AppendFirst(rows, Patched(DefaultAvailability(stylistId), p), mine);
      PatchedIdempotent(DefaultAvailability(stylistId), p);
    case Some(i) =>
      AgreeingFirst(rows, rows', mine);
      PatchedIdempotent(rows[i], p);
  }
}
