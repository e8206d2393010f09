/** One afternoon of the booking ledger, from reservation through payment to
    cancellation, traced through the handlers. */
module Scenario {
  import opened Base
  import opened DateUtils
  import opened BookingModel
  import opened PaymentModel
  import opened FacilityModel
  import opened Ledger
  import opened BookingController
  import opened Payments

  /** A facility whose one tennis court costs 2000 cents an hour. */
  function Start(): Db {
    Db([Facility(0, "Riverside", "Courts by the river", 3, [Court(1, "Court 1", "tennis", 2000, true)], true, true)],
       [], [], 10)
  }

  /** The reservation of court 1 on day 10 from 14:00 to 15:00 for one hour. */
  function First(): BookingRequest {
    BookingRequest(0, 1, 10, "14:00", "15:00", 1)
  }

  /** A later request for 14:30-15:30 on the same court and day. */
  function Later(): BookingRequest {
    BookingRequest(0, 1, 10, "14:30", "15:30", 1)
  }

  function FirstBooking(): Booking {
    NewBooking(10, 7, 0, CourtSnapshot(1, "Court 1", "tennis"), 10, "14:00", "15:00", 1, 2000)
  }

  function OpenedPayment(): Payment {
    Payment(11, 10, 7, 2000, "usd", Stripe, Created, Some("pi_1"), None, None)
  }

  function Provider(): CreateIntent {
    (r: IntentRequest) => Some(CreatedIntent("pi_1", "secret_1"))
  }

  function SucceededLookup(): RetrieveIntent {
    (id: string) => Some(RetrievedIntent("succeeded", Some("ch_1")))
  }

  function Reserved(): Db {
    Start().(bookings := [FirstBooking()], nextId := 11)
  }

  function PaymentOpened(): Db {
    Reserved().(payments := [OpenedPayment()], nextId := 12)
  }

  function PaidBooking(): Booking {
    FirstBooking().(paymentStatus := Paid, status := Confirmed, paymentId := Some("pi_1"))
  }

  function PaidFor(): Db {
    PaymentOpened().(bookings := [PaidBooking()],
                     payments := [OpenedPayment().(status := PaymentRecordStatus.Succeeded, chargeId := Some("ch_1"))])
  }

  function CancelledBooking(now: int): Booking {
    PaidBooking().(status := Cancelled, cancellationReason := Some("change of plans"), cancelledAt := Some(now),
                   cancelledBy := Some(7))
  }

  lemma ReserveStep()
    ensures Create(Start(), 7, First()) == Outcome(Ok(FirstBooking()), Reserved())
  {
    assert FacilityIndex(Start().facilities, 0) == Some(0);
    assert RequestedCourt(Start(), First()) == Some(Court(1, "Court 1", "tennis", 2000, true));
  }

  lemma ConflictStep()
    ensures Create(Reserved(), 8, Later()).reply == Fail(400, "Time slot not available")
  {
    assert StrLess("14:00", "15:30") by {
      assert "14:00"[1..] == "4:00" && "15:30"[1..] == "5:30";
    }
    assert StrLess("14:30", "15:00") by {
      assert "14:30"[1..] == "4:30" && "15:00"[1..] == "5:00";
    }
    assert Conflicts(Reserved().bookings[0], Later());
    assert FacilityIndex(Reserved().facilities, 0) == Some(0);
  }

  lemma PaymentStep()
    ensures CreatePaymentIntent(Reserved(), 7, 10, Provider()) ==
      Outcome(Ok(IntentReply("secret_1", "pi_1", 11)), PaymentOpened())
  {
    BookingIndexAt(Reserved().bookings, 10, 0);
    assert FacilityIndex(Reserved().facilities, 0) == Some(0);
  }

  lemma ConfirmStep()
    ensures Confirm(PaymentOpened(), "pi_1", 10, SucceededLookup()) == Outcome(Ok(PaidBooking()), PaidFor())
  {
    BookingIndexAt(PaymentOpened().bookings, 10, 0);
    PaymentIndexByIntentAt(PaymentOpened().payments, "pi_1", 0);
  }

  lemma CancelStep(now: int)
    ensures UpdateStatus(PaidFor(), 7, 10, "cancelled", Some("change of plans"), now) ==
      Outcome(Ok(CancelledBooking(now)), PaidFor().(bookings := [CancelledBooking(now)]))
  {
    BookingIndexAt(PaidFor().bookings, 10, 0);
  }

  lemma RebookStep(now: int)
    ensures Create(PaidFor().(bookings := [CancelledBooking(now)]), 8, Later()).reply.Ok?
  {
    var db := PaidFor().(bookings := [CancelledBooking(now)]);
    assert FacilityIndex(db.facilities, 0) == Some(0);
    assert !Conflicts(db.bookings[0], Later());
  }

  /** A one-hour booking from 14:00 on day 10 is made and costs 2000 cents;
      a request for 14:30-15:30 on the same court is then refused; once the
      first booking is paid it is confirmed; after it is cancelled "for a
      change of plans" the 14:30 request goes through. */
  lemma Afternoon(now: int)
    ensures var first := Create(Start(), 7, First());
      var setup := CreatePaymentIntent(first.db, 7, first.reply.value.id, Provider());
      var paid := Confirm(setup.db, setup.reply.value.paymentIntentId, first.reply.value.id, SucceededLookup());
      var cancelled := UpdateStatus(paid.db, 7, first.reply.value.id, "cancelled", Some("change of plans"), now);
      && first.reply.Ok? && first.reply.value.totalAmount == 2000 && first.reply.value.status == Pending
      && Create(first.db, 8, Later()).reply == Fail(400, "Time slot not available")
      && setup.reply.Ok?
      && paid.reply.Ok? && paid.reply.value.status == Confirmed && paid.reply.value.paymentStatus == Paid
      && paid.db.payments[0].status == PaymentRecordStatus.Succeeded
      && cancelled.reply.Ok? && cancelled.reply.value.status == Cancelled
      && cancelled.reply.value.cancelledAt == Some(now)
      && Create(cancelled.db, 8, Later()).reply.Ok?
  {
    ReserveStep();
    ConflictStep();
    PaymentStep();
    ConfirmStep();
    CancelStep(now);
    RebookStep(now);
  }
}
