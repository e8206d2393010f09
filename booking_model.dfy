/** The booking record (Booking.js): its fields, the two status enumerations
    and the defaults a new document receives. */
module BookingModel {
  import opened Base

  /** `status`: enum pending | confirmed | cancelled | completed. */
  datatype BookingStatus = Pending | Confirmed | Cancelled | Completed

  /** `paymentStatus`: enum pending | paid | failed | refunded. */
  datatype PaymentStatus = PaymentPending | Paid | PaymentFailed | PaymentRefunded

  /** The embedded court `{ _id, name, sportType }`: a copy taken when the
      booking is made, not a live reference to the facility's court. */
  datatype CourtSnapshot = CourtSnapshot(id: Id, name: string, sportType: string)

  /** A booking document. `date` is the calendar day; `startTime` and `endTime`
      are the caller's "HH:MM" strings; `duration` is in hours and
      `totalAmount` in cents. The last three fields are optional. */
  datatype Booking = Booking(
    id: Id,
    user: Id,
    facility: Id,
    court: CourtSnapshot,
    date: int,
    startTime: string,
    endTime: string,
    duration: int,
    totalAmount: int,
    status: BookingStatus,
    paymentStatus: PaymentStatus,
    paymentId: Option<string>,
    cancellationReason: Option<string>,
    cancelledAt: Option<int>,
    cancelledBy: Option<Id>)

  /** The string the schema stores for a booking status. */
  function StatusName(s: BookingStatus): string {
    match s
    case Pending => "pending"
    case Confirmed => "confirmed"
    case Cancelled => "cancelled"
    case Completed => "completed"
  }

  /** The enum validator of `status`: a string is accepted exactly when it
      names one of the four statuses. */
  function ParseStatus(x: string): (r: Option<BookingStatus>)
    ensures r.Some? ==> StatusName(r.value) == x
    ensures r.None? ==> forall s :: StatusName(s) != x
  {
    if x == "pending" then Some(Pending)
    else if x == "confirmed" then Some(Confirmed)
    else if x == "cancelled" then Some(Cancelled)
    else if x == "completed" then Some(Completed)
    else None
  }

  /** Every status survives the trip through its stored name. */
  lemma ParseStatusName(s: BookingStatus)
    ensures ParseStatus(StatusName(s)) == Some(s)
  {
  }

  /** A booking created from the required fields: both statuses take their
      `pending` default, and no payment or cancellation is recorded. */
  function NewBooking(id: Id, user: Id, facility: Id, court: CourtSnapshot, date: int,
                      startTime: string, endTime: string, duration: int, totalAmount: int): (b: Booking)
    ensures b.status == Pending && b.paymentStatus == PaymentPending
    ensures b.paymentId.None? && b.cancellationReason.None? && b.cancelledAt.None? && b.cancelledBy.None?
  {
    Booking(id, user, facility, court, date, startTime, endTime, duration, totalAmount,
            Pending, PaymentPending, None, None, None, None)
  }

  /** The statuses that hold a slot: the `status: { $in: ['confirmed', 'pending'] }`
      filter shared by the conflict check and the availability query. */
  predicate BlocksSlot(b: Booking) {
    b.status == Pending || b.status == Confirmed
  }

  /** `BlocksSlot` is the `$in` test on the stored status name. */
  lemma BlocksSlotByName(b: Booking)
    ensures BlocksSlot(b) <==> StatusName(b.status) in ["confirmed", "pending"]
  {
  }
}
