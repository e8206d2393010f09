/** The booking handlers (backend/controllers/bookingController.js):
    reserving a court slot (`create`), listing the caller's bookings
    (`myBookings`) and changing a booking's status (`updateStatus`). */
module BookingController {
  import opened Base
  import opened DateUtils
  import opened BookingModel
  import opened FacilityModel
  import opened Ledger

  /** The body of a reservation: facility, court, calendar day, the "HH:MM"
      start and end, and the duration in hours (taken as given, not derived
      from the times). */
  datatype BookingRequest = BookingRequest(
    facilityId: Id, courtId: Id, date: int, startTime: string, endTime: string, duration: int)

  // ---------------------------------------------------------------------------
  // The conflict query and the no-double-booking invariant

  /** The conflict query: same facility, court `_id` and day, a status that
      holds the slot, and `existing.startTime < endTime` and
      `existing.endTime > startTime`, both compared as strings. */
  predicate Conflicts(existing: Booking, req: BookingRequest) {
    && existing.facility == req.facilityId
    && existing.court.id == req.courtId
    && existing.date == req.date
    && BlocksSlot(existing)
    && StrLess(existing.startTime, req.endTime)
    && StrLess(req.startTime, existing.endTime)
  }

  /** `Booking.findOne(conflict query)`. */
  function FindConflict(bs: seq<Booking>, req: BookingRequest): (r: Option<nat>)
    ensures r.Some? ==> r.value < |bs| && Conflicts(bs[r.value], req)
    ensures r.None? <==> forall i :: 0 <= i < |bs| ==> !Conflicts(bs[i], req)
  {
    FirstIndex(bs, (b: Booking) => Conflicts(b, req))
  }

  /** Two bookings of the same court and day that both hold their slot. */
  predicate BothHoldSlot(x: Booking, y: Booking) {
    x.facility == y.facility && x.court.id == y.court.id && x.date == y.date && BlocksSlot(x) && BlocksSlot(y)
  }

  /** Two bookings that hold intersecting stretches of the same court on the
      same day, under the string comparison the conflict query uses. */
  predicate Clash(x: Booking, y: Booking) {
    && BothHoldSlot(x, y)
    && StrLess(x.startTime, y.endTime)
    && StrLess(y.startTime, x.endTime)
  }

  /** No two pending or confirmed bookings of one court and day intersect. */
  ghost predicate NoDoubleBooking(bs: seq<Booking>) {
    forall i, j :: 0 <= i < |bs| && 0 <= j < |bs| && i != j ==> !Clash(bs[i], bs[j])
  }

  // ---------------------------------------------------------------------------
  // create

  /** The court a request names, when its facility exists and has that court. */
  function RequestedCourt(db: Db, req: BookingRequest): Option<Court> {
    match FacilityIndex(db.facilities, req.facilityId)
    case None => None
    case Some(i) => CourtById(db.facilities[i].courts, req.courtId)
  }

  /** `b` is the booking `create` writes for `user`: the request's slot and
      duration, a snapshot of the court, the price of the court times the
      duration, and the schema defaults. */
  predicate IsBookingFor(b: Booking, user: Id, req: BookingRequest, court: Court) {
    && b.user == user
    && b.facility == req.facilityId
    && b.court == CourtSnapshot(court.id, court.name, court.sportType)
    && b.date == req.date
    && b.startTime == req.startTime && b.endTime == req.endTime
    && b.duration == req.duration
    && b.totalAmount == court.pricePerHour * req.duration
    && b.status == Pending && b.paymentStatus == PaymentPending
    && b.paymentId.None? && b.cancellationReason.None? && b.cancelledAt.None? && b.cancelledBy.None?
  }

  /** Mongoose's `required` on the booking's `startTime` and `endTime`: an
      empty string is refused when the document is saved. */
  predicate HasTimes(req: BookingRequest) {
    req.startTime != "" && req.endTime != ""
  }

  /** `create`: an unknown facility or court is a 404, a conflicting booking a
      400, a document without start or end time a 500 from the schema, and
      otherwise exactly one new booking is appended. */
  function Create(db: Db, user: Id, req: BookingRequest): (out: Outcome<Booking>)
    ensures out.reply.Fail? ==> out.db == db
    ensures FacilityIndex(db.facilities, req.facilityId).None? ==> out.reply == Fail(404, "Facility not found")
    ensures FacilityIndex(db.facilities, req.facilityId).Some? && RequestedCourt(db, req).None? ==>
      out.reply == Fail(404, "Court not found")
    ensures RequestedCourt(db, req).Some? && (exists i :: 0 <= i < |db.bookings| && Conflicts(db.bookings[i], req)) ==>
      out.reply == Fail(400, "Time slot not available")
    ensures RequestedCourt(db, req).Some? && FindConflict(db.bookings, req).None? && !HasTimes(req) ==>
      out.reply == Fail(500, "Server error")
    ensures out.reply.Ok? <==>
      && RequestedCourt(db, req).Some? && (forall i :: 0 <= i < |db.bookings| ==> !Conflicts(db.bookings[i], req))
      && HasTimes(req)
    ensures out.reply.Ok? ==>
      && IsBookingFor(out.reply.value, user, req, RequestedCourt(db, req).value)
      && out.reply.value.id == db.nextId
      && out.db == db.(bookings := db.bookings + [out.reply.value], nextId := db.nextId + 1)
    ensures WellFormed(db) ==> WellFormed(out.db)
  {
    match FacilityIndex(db.facilities, req.facilityId)
    case None => Outcome(Fail(404, "Facility not found"), db)
    case Some(fi) =>
      match CourtById(db.facilities[fi].courts, req.courtId)
      case None => Outcome(Fail(404, "Court not found"), db)
      case Some(court) =>
        if FindConflict(db.bookings, req).Some? then Outcome(Fail(400, "Time slot not available"), db)
        else if !HasTimes(req) then Outcome(Fail(500, "Server error"), db)
        else
          var booking := NewBooking(db.nextId, user, req.facilityId,
                                    CourtSnapshot(court.id, court.name, court.sportType),
                                    req.date, req.startTime, req.endTime, req.duration,
                                    court.pricePerHour * req.duration);
          Outcome(Ok(booking), db.(bookings := db.bookings + [booking], nextId := db.nextId + 1))
  }

  /** A successful `create` keeps the ledger free of double bookings. */
  lemma CreateKeepsNoDoubleBooking(db: Db, user: Id, req: BookingRequest)
    requires NoDoubleBooking(db.bookings)
    ensures NoDoubleBooking(Create(db, user, req).db.bookings)
  {
    var out := Create(db, user, req);
    if out.reply.Ok? {
      var bs, b := db.bookings, out.reply.value;
      var bs' := out.db.bookings;
      assert bs' == bs + [b];
      forall i | 0 <= i < |bs|
        ensures !Clash(bs[i], b) && !Clash(b, bs[i])
      {
        assert !Conflicts(bs[i], req);
      }
      forall i, j | 0 <= i < |bs'| && 0 <= j < |bs'| && i != j
        ensures !Clash(bs'[i], bs'[j])
      {
        if i < |bs| && j < |bs| {
          assert bs'[i] == bs[i] && bs'[j] == bs[j];
        }
      }
    }
  }


  // ---------------------------------------------------------------------------
  // The string comparison against minutes

  /** For canonical "HH:MM" times the string order is the order of the
      digits, the colon aside. */
  lemma StrLessDigits(a: string, b: string)
    requires IsCanonical(a) && IsCanonical(b)
    ensures StrLess(a, b) <==>
      || a[0] < b[0]
      || (a[0] == b[0] && a[1] < b[1])
      || (a[0] == b[0] && a[1] == b[1] && a[3] < b[3])
      || (a[0] == b[0] && a[1] == b[1] && a[3] == b[3] && a[4] < b[4])
  {
    if a[0] != b[0] {
      StrLessAt(a, b, 0);
    } else if a[1] != b[1] {
      assert a[..1] == b[..1];
      StrLessAt(a, b, 1);
    } else if a[3] != b[3] {
      assert a[..3] == b[..3];
      StrLessAt(a, b, 3);
    } else if a[4] != b[4] {
      assert a[..4] == b[..4];
      StrLessAt(a, b, 4);
    } else {
      assert a == b;
      StrLessIrreflexive(a);
    }
  }

  /** For canonical "HH:MM" times the string order of the store is the order
      of the minutes since midnight. */
  lemma StrLessCanonical(a: string, b: string)
    requires IsCanonical(a) && IsCanonical(b)
    ensures StrLess(a, b) <==> Minutes(a) < Minutes(b)
  {
    StrLessDigits(a, b);
    LexMinutes(DigitOf(a[0]), DigitOf(a[1]), DigitOf(a[3]), DigitOf(a[4]),
               DigitOf(b[0]), DigitOf(b[1]), DigitOf(b[3]), DigitOf(b[4]));
  }

  /** Minutes since midnight written with four digits `h1 h2 : m1 m2`, the
      first minute digit at most 5, order as the digits do, left to right. */
  lemma LexMinutes(h1: nat, h2: nat, m1: nat, m2: nat, k1: nat, k2: nat, n1: nat, n2: nat)
    requires h1 < 10 && h2 < 10 && m1 < 6 && m2 < 10
    requires k1 < 10 && k2 < 10 && n1 < 6 && n2 < 10
    ensures 600 * h1 + 60 * h2 + 10 * m1 + m2 < 600 * k1 + 60 * k2 + 10 * n1 + n2 <==>
      || h1 < k1
      || (h1 == k1 && h2 < k2)
      || (h1 == k1 && h2 == k2 && m1 < n1)
      || (h1 == k1 && h2 == k2 && m1 == n1 && m2 < n2)
  {
  }

  /** On canonical times the conflict query's string test is the half-open
      overlap test of backend/utils/dateUtils.js. */
  lemma ConflictsIsOverlap(existing: Booking, req: BookingRequest)
    requires IsCanonical(existing.startTime) && IsCanonical(existing.endTime)
    requires IsCanonical(req.startTime) && IsCanonical(req.endTime)
    ensures Conflicts(existing, req) <==>
      && existing.facility == req.facilityId && existing.court.id == req.courtId
      && existing.date == req.date && BlocksSlot(existing)
      && Overlaps(existing.startTime, existing.endTime, req.startTime, req.endTime)
  {
    StrLessCanonical(existing.startTime, req.endTime);
    StrLessCanonical(req.startTime, existing.endTime);
    CanonicalOverlaps(existing.startTime, existing.endTime, req.startTime, req.endTime);
  }

  /** When every stored time is canonical, a ledger without double bookings
      has no two slot-holding bookings of one court and day that overlap in
      minutes. */
  lemma NoDoubleBookingInMinutes(bs: seq<Booking>)
    requires NoDoubleBooking(bs)
    requires forall k :: 0 <= k < |bs| ==> IsCanonical(bs[k].startTime) && IsCanonical(bs[k].endTime)
    ensures forall i, j :: 0 <= i < |bs| && 0 <= j < |bs| && i != j && BothHoldSlot(bs[i], bs[j]) ==>
      !Overlaps(bs[i].startTime, bs[i].endTime, bs[j].startTime, bs[j].endTime)
  {
    forall i, j | 0 <= i < |bs| && 0 <= j < |bs| && i != j && BothHoldSlot(bs[i], bs[j])
      ensures !Overlaps(bs[i].startTime, bs[i].endTime, bs[j].startTime, bs[j].endTime)
    {
      assert !Clash(bs[i], bs[j]);
      StrLessCanonical(bs[i].startTime, bs[j].endTime);
      StrLessCanonical(bs[j].startTime, bs[i].endTime);
      CanonicalOverlaps(bs[i].startTime, bs[i].endTime, bs[j].startTime, bs[j].endTime);
    }
  }

  /** Times that are not zero-padded escape the string comparison: a request
      for "9:00"-"11:00" overlaps a booking for "10:00"-"10:30" in minutes,
      yet the conflict query does not match it, since "9:00" sorts after
      "10:30". */
  lemma UnpaddedTimeEscapesConflictQuery()
    ensures var existing := NewBooking(1, 7, 0, CourtSnapshot(2, "Court A", "tennis"), 10,
                                       "10:00", "10:30", 1, 1000);
      var req := BookingRequest(0, 2, 10, "9:00", "11:00", 2);
      Overlaps(existing.startTime, existing.endTime, req.startTime, req.endTime) &&
      !Conflicts(existing, req)
  {
    UnpaddedOverlap();
    assert !StrLess("9:00", "10:30");
  }

  lemma UnpaddedOverlap()
    ensures Overlaps("10:00", "10:30", "9:00", "11:00")
  {
    ParseCanonical("10:00");
    ParseCanonical("10:30");
    ParseCanonical("11:00");
    NineOClock();
  }

  lemma NineOClock()
    ensures ParseTime("9:00") == Some(540)
  {
    assert DigitsValue("9") == 9 by {
      assert "9"[..0] == [];
    }
    assert DigitsValue("00") == 0 by {
      TwoDigitsValue("00");
    }
    ParseTimeOfFields("9", "00");
    assert "9" + ":" + "00" == "9:00";
  }

  // ---------------------------------------------------------------------------
  // myBookings

  /** The `myBookings` query: the caller's bookings, and when a non-empty
      `status` is given, only those whose stored status is that string. */
  predicate MyBookingsQuery(b: Booking, user: Id, status: Option<string>) {
    b.user == user && (status.None? || status.value == "" || StatusName(b.status) == status.value)
  }

  /** The page size of `myBookings` when the query gives none. */
  const MyBookingsLimit: int := 10

  /** `myBookings`: the caller's bookings matching the filter, newest first,
      paged (page 1 and 10 per page unless the query says otherwise). */
  function MyBookings(db: Db, user: Id, status: Option<string>, page: Option<int>, limit: Option<int>)
    : (r: Reply<Page<Booking>>)
    ensures var p, l := OrElse(page, 1), OrElse(limit, MyBookingsLimit);
      && (r.Fail? <==> (p - 1) * l < 0)
      && (r.Ok? ==>
            && (forall b :: b in r.value.items ==> b in db.bookings && MyBookingsQuery(b, user, status))
            && (l > 0 ==> |r.value.items| <= l)
            && r.value.currentPage == p
            && r.value.total == |Filter(db.bookings, (b: Booking) => MyBookingsQuery(b, user, status))|
            && r.value.totalPages == TotalPages(r.value.total, l))
  {
    var mine := Filter(db.bookings, (b: Booking) => MyBookingsQuery(b, user, status));
    Paginate(Reverse(mine), OrElse(page, 1), OrElse(limit, MyBookingsLimit))
  }

  /** Every booking of the caller that matches the filter is listed on some
      page, the newest first: with a positive limit, the `i`-th newest is on
      page `i / limit + 1`. */
  lemma MyBookingsCoversAll(db: Db, user: Id, status: Option<string>, limit: int, i: nat)
    requires limit > 0
    requires i < |Filter(db.bookings, (b: Booking) => MyBookingsQuery(b, user, status))|
    ensures var mine := Filter(db.bookings, (b: Booking) => MyBookingsQuery(b, user, status));
      var r := MyBookings(db, user, status, Some(i / limit + 1), Some(limit));
      r.Ok? && i % limit < |r.value.items| && r.value.items[i % limit] == mine[|mine| - 1 - i]
  {
    var mine := Filter(db.bookings, (b: Booking) => MyBookingsQuery(b, user, status));
    PageOfItem(Reverse(mine), limit, i);
  }

  // ---------------------------------------------------------------------------
  // updateStatus

  /** The new document `updateStatus` saves: the status replaced, and, only
      when that status is `cancelled`, the reason, the time and the caller
      stamped; every other field as before. */
  predicate Restamped(before: Booking, after: Booking, actor: Id, reason: Option<string>, now: int) {
    if after.status == Cancelled then
      after == before.(status := Cancelled, cancellationReason := reason, cancelledAt := Some(now),
                       cancelledBy := Some(actor))
    else
      after == before.(status := after.status)
  }

  /** `updateStatus`: 404 for an unknown booking, 403 unless the caller made
      it, a failed save (500) for a status outside the enumeration; otherwise
      the booking takes exactly the requested status, with no check of the
      status it had. */
  function UpdateStatus(db: Db, requester: Id, bookingId: Id, status: string, reason: Option<string>, now: int)
    : (out: Outcome<Booking>)
    ensures out.reply.Fail? ==> out.db == db
    ensures BookingIndex(db.bookings, bookingId).None? ==> out.reply == Fail(404, "Booking not found")
    ensures BookingIndex(db.bookings, bookingId).Some? ==>
      var k := BookingIndex(db.bookings, bookingId).value;
      && (db.bookings[k].user != requester ==> out.reply == Fail(403, "Access denied"))
      && (db.bookings[k].user == requester && ParseStatus(status).None? ==> out.reply == Fail(500, "Server error"))
      && (db.bookings[k].user == requester && ParseStatus(status).Some? ==>
            && out.reply.Ok?
            && StatusName(out.reply.value.status) == status
            && Restamped(db.bookings[k], out.reply.value, requester, reason, now)
            && out.db == db.(bookings := db.bookings[k := out.reply.value]))
    ensures WellFormed(db) ==> WellFormed(out.db)
  {
    match BookingIndex(db.bookings, bookingId)
    case None => Outcome(Fail(404, "Booking not found"), db)
    case Some(k) =>
      var booking := db.bookings[k];
      if booking.user != requester then Outcome(Fail(403, "Access denied"), db)
      else
        match ParseStatus(status)
        case None => Outcome(Fail(500, "Server error"), db)
        case Some(s) =>
          var updated :=
            if s == Cancelled then
              booking.(status := s, cancellationReason := reason, cancelledAt := Some(now), cancelledBy := Some(requester))
            else booking.(status := s);
          Outcome(Ok(updated), db.(bookings := db.bookings[k := updated]))
  }

  /** Moving a booking to a status that does not hold a slot (cancelled or
      completed) keeps the ledger free of double bookings. */
  lemma ReleasingKeepsNoDoubleBooking(db: Db, requester: Id, bookingId: Id, status: string,
                                      reason: Option<string>, now: int)
    requires NoDoubleBooking(db.bookings)
    requires status == "cancelled" || status == "completed"
    ensures NoDoubleBooking(UpdateStatus(db, requester, bookingId, status, reason, now).db.bookings)
  {
    var out := UpdateStatus(db, requester, bookingId, status, reason, now);
    if out.reply.Ok? {
      var k := BookingIndex(db.bookings, bookingId).value;
      var bs, bs' := db.bookings, out.db.bookings;
      assert !BlocksSlot(bs'[k]);
      forall i, j | 0 <= i < |bs'| && 0 <= j < |bs'| && i != j
        ensures !Clash(bs'[i], bs'[j])
      {
        if i != k && j != k {
          assert bs'[i] == bs[i] && bs'[j] == bs[j];
        }
      }
    }
  }

  /** Cancelling the one booking that stood in the way of a request lets that
      request through. */
  lemma CancellationFreesSlot(db: Db, requester: Id, bookingId: Id, reason: Option<string>, now: int,
                              user: Id, req: BookingRequest)
    requires WellFormed(db)
    requires UpdateStatus(db, requester, bookingId, "cancelled", reason, now).reply.Ok?
    requires RequestedCourt(db, req).Some? && HasTimes(req)
    requires forall i :: 0 <= i < |db.bookings| && Conflicts(db.bookings[i], req) ==> db.bookings[i].id == bookingId
    ensures Create(UpdateStatus(db, requester, bookingId, "cancelled", reason, now).db, user, req).reply.Ok?
  {
    var db' := UpdateStatus(db, requester, bookingId, "cancelled", reason, now).db;
    var k := BookingIndex(db.bookings, bookingId).value;
    assert db'.facilities == db.facilities;
    assert RequestedCourt(db', req) == RequestedCourt(db, req);
    forall i | 0 <= i < |db'.bookings|
      ensures !Conflicts(db'.bookings[i], req)
    {
      if i == k {
        assert db'.bookings[i].status == Cancelled;
      } else {
        assert db'.bookings[i] == db.bookings[i];
        assert db.bookings[i].id != bookingId;
      }
    }
  }

  /** There is no transition guard: when the maker of a booking sets it to
      "pending" while another booking holds an intersecting stretch of the
      same court and day, the ledger ends up with a double booking. */
  lemma ReactivationClash(db: Db, requester: Id, bookingId: Id, reason: Option<string>, now: int, j: nat)
    requires BookingIndex(db.bookings, bookingId).Some?
    requires var k := BookingIndex(db.bookings, bookingId).value;
      && db.bookings[k].user == requester && j < |db.bookings| && j != k
      && Clash(db.bookings[k].(status := Pending), db.bookings[j])
    ensures !NoDoubleBooking(UpdateStatus(db, requester, bookingId, "pending", reason, now).db.bookings)
  {
    var k := BookingIndex(db.bookings, bookingId).value;
    var bs' := UpdateStatus(db, requester, bookingId, "pending", reason, now).db.bookings;
    assert ParseStatus("pending") == Some(Pending);
    assert bs'[k] == db.bookings[k].(status := Pending);
    assert bs'[j] == db.bookings[j];
  }

  /** A cancelled booking whose slot was then taken by another player can be
      set back to "pending" by its maker, double-booking the court. */
  lemma ReactivationDoubleBooks()
    ensures var court := CourtSnapshot(2, "Court A", "tennis");
      var first := NewBooking(5, 7, 0, court, 10, "10:00", "11:00", 1, 2000).(status := Cancelled);
      var second := NewBooking(6, 8, 0, court, 10, "10:00", "11:00", 1, 2000);
      var db := Db([], [first, second], [], 9);
      var out := UpdateStatus(db, 7, 5, "pending", None, 0);
      && NoDoubleBooking(db.bookings)
      && out.reply.Ok?
      && !NoDoubleBooking(out.db.bookings)
  {
    var court := CourtSnapshot(2, "Court A", "tennis");
    var first := NewBooking(5, 7, 0, court, 10, "10:00", "11:00", 1, 2000).(status := Cancelled);
    var second := NewBooking(6, 8, 0, court, 10, "10:00", "11:00", 1, 2000);
    var db := Db([], [first, second], [], 9);
    BookingIndexAt(db.bookings, 5, 0);
    assert ParseStatus("pending") == Some(Pending);
    assert StrLess("10:00", "11:00") by {
      assert "10:00"[1..] == "0:00" && "11:00"[1..] == "1:00";
    }
    assert Clash(first.(status := Pending), second);
    ReactivationClash(db, 7, 5, None, 0, 1);
  }

  // ---------------------------------------------------------------------------
  // The handlers, as steps on the shared store

  /** `POST /bookings`. */
  method HandleCreate(store: Store, user: Id, req: BookingRequest) returns (reply: Reply<Booking>)
    requires store.Valid()
    modifies store
    ensures store.Valid()
    ensures reply == Create(old(store.Snapshot()), user, req).reply
    ensures store.Snapshot() == Create(old(store.Snapshot()), user, req).db
  {
    var fi := FacilityIndex(store.facilities, req.facilityId);
    if fi.None? {
      return Fail(404, "Facility not found");
    }
    var court := CourtById(store.facilities[fi.value].courts, req.courtId);
    if court.None? {
      return Fail(404, "Court not found");
    }
    var conflict := FindConflict(store.bookings, req);
    if conflict.Some? {
      return Fail(400, "Time slot not available");
    }
    if !HasTimes(req) {
      return Fail(500, "Server error");
    }
    var c := court.value;
    var id := store.FreshId();
    var booking := NewBooking(id, user, req.facilityId, CourtSnapshot(c.id, c.name, c.sportType),
                              req.date, req.startTime, req.endTime, req.duration, c.pricePerHour * req.duration);
    store.bookings := store.bookings + [booking];
    reply := Ok(booking);
  }

  /** `PATCH /bookings/:id/status`; `now` is the clock reading stamped as
      `cancelledAt`. */
  method HandleUpdateStatus(store: Store, requester: Id, bookingId: Id, status: string,
                            reason: Option<string>, now: int) returns (reply: Reply<Booking>)
    requires store.Valid()
    modifies store
    ensures store.Valid()
    ensures reply == UpdateStatus(old(store.Snapshot()), requester, bookingId, status, reason, now).reply
    ensures store.Snapshot() == UpdateStatus(old(store.Snapshot()), requester, bookingId, status, reason, now).db
  {
    var k := BookingIndex(store.bookings, bookingId);
    if k.None? {
      return Fail(404, "Booking not found");
    }
    var booking := store.bookings[k.value];
    if booking.user != requester {
      return Fail(403, "Access denied");
    }
    var parsed := ParseStatus(status);
    if parsed.None? {
      return Fail(500, "Server error");
    }
    booking := booking.(status := parsed.value);
    if parsed.value == Cancelled {
      booking := booking.(cancellationReason := reason, cancelledAt := Some(now), cancelledBy := Some(requester));
    }
    store.bookings := store.bookings[k.value := booking];
    reply := Ok(booking);
  }
}
