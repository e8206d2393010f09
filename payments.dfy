/** The payment bridge (backend/routes/payments.js): opening a provider
    payment intent for a booking, and confirming a booking once the provider
    reports the intent as paid. The provider is a pair of functions given by
    the caller; `None` from either stands for a call that throws. */
module Payments {
  import opened Base
  import opened BookingModel
  import opened PaymentModel
  import opened FacilityModel
  import opened Ledger
  import opened BookingController

  /** What the handler asks the provider for: an amount in minor units
      (cents), a currency and the booking it is for. */
  datatype IntentRequest = IntentRequest(amount: int, currency: string, bookingId: Id)

  /** An intent the provider created: its id and client secret. */
  datatype CreatedIntent = CreatedIntent(id: string, clientSecret: string)

  /** An intent as the provider reports it later: its status and the id of
      its latest charge, if any. */
  datatype RetrievedIntent = RetrievedIntent(status: string, latestCharge: Option<string>)

  /** The body of a successful `create-payment-intent` reply. */
  datatype IntentReply = IntentReply(clientSecret: string, paymentIntentId: string, paymentId: Id)

  /** The provider's intent creation. */
  type CreateIntent = IntentRequest -> Option<CreatedIntent>

  /** The provider's intent lookup by id. */
  type RetrieveIntent = string -> Option<RetrievedIntent>

  // ---------------------------------------------------------------------------
  // create-payment-intent

  /** The intent request made for booking `b`: its whole price in cents, in
      'usd'. */
  function IntentFor(b: Booking): (r: IntentRequest)
    ensures r.amount == b.totalAmount && r.currency == DefaultCurrency && r.bookingId == b.id
  {
    IntentRequest(b.totalAmount, "usd", b.id)
  }

  /** `POST /create-payment-intent`: 404 for an unknown booking, 403 unless
      the caller made it, 500 when the facility it names cannot be read or
      the provider fails; otherwise one `created` payment is recorded for the
      whole price. The bookings are never changed. */
  function CreatePaymentIntent(db: Db, requester: Id, bookingId: Id, create: CreateIntent)
    : (out: Outcome<IntentReply>)
    ensures out.db.bookings == db.bookings && out.db.facilities == db.facilities
    ensures out.reply.Fail? ==> out.db == db
    ensures BookingIndex(db.bookings, bookingId).None? ==> out.reply == Fail(404, "Booking not found")
    ensures BookingIndex(db.bookings, bookingId).Some? ==>
      var b := db.bookings[BookingIndex(db.bookings, bookingId).value];
      && (b.user != requester ==> out.reply == Fail(403, "Unauthorized"))
      && (b.user == requester ==>
            (out.reply.Ok? <==> FacilityIndex(db.facilities, b.facility).Some? && create(IntentFor(b)).Some?))
      && (b.user == requester && (FacilityIndex(db.facilities, b.facility).None? || create(IntentFor(b)).None?) ==>
            out.reply == Fail(500, "Payment setup failed") && out.db == db)
      && (out.reply.Ok? ==>
            var intent := create(IntentFor(b)).value;
            && out.reply.value == IntentReply(intent.clientSecret, intent.id, db.nextId)
            && out.db.payments == db.payments + [NewPayment(db.nextId, b.id, requester, b.totalAmount).(paymentIntentId := Some(intent.id))]
            && out.db.nextId == db.nextId + 1)
    ensures out.reply.Fail? && out.reply.code == 500 ==> out.reply.message == "Payment setup failed"
    ensures WellFormed(db) ==> WellFormed(out.db)
  {
    match BookingIndex(db.bookings, bookingId)
    case None => Outcome(Fail(404, "Booking not found"), db)
    case Some(k) =>
      var b := db.bookings[k];
      if b.user != requester then Outcome(Fail(403, "Unauthorized"), db)
      else if FacilityIndex(db.facilities, b.facility).None? then Outcome(Fail(500, "Payment setup failed"), db)
      else
        match create(IntentFor(b))
        case None => Outcome(Fail(500, "Payment setup failed"), db)
        case Some(intent) =>
          var payment := Payment(db.nextId, b.id, requester, b.totalAmount, "usd", Stripe, Created,
                                 Some(intent.id), None, None);
          Outcome(Ok(IntentReply(intent.clientSecret, intent.id, payment.id)),
                  db.(payments := db.payments + [payment], nextId := db.nextId + 1))
  }

  // ---------------------------------------------------------------------------
  // confirm

  /** The booking after a confirmed payment: paid, confirmed, and carrying
      the intent id; nothing else changes. */
  function MarkPaid(b: Booking, intentId: string): (r: Booking)
    ensures r.paymentStatus == Paid && r.status == Confirmed && r.paymentId == Some(intentId)
    ensures r.(paymentStatus := b.paymentStatus, status := b.status, paymentId := b.paymentId) == b
  {
    b.(paymentStatus := Paid, status := Confirmed, paymentId := Some(intentId))
  }

  /** `Payment.findOneAndUpdate({ paymentIntentId }, ...)`: the first payment
      with that intent id becomes `succeeded` with the given charge; with no
      such payment the collection is unchanged. */
  function SettlePayment(ps: seq<Payment>, intentId: string, charge: Option<string>): (r: seq<Payment>)
    ensures |r| == |ps|
    ensures PaymentIndexByIntent(ps, intentId).None? ==> r == ps
    ensures PaymentIndexByIntent(ps, intentId).Some? ==>
      var j := PaymentIndexByIntent(ps, intentId).value;
      && r[j] == ps[j].(status := Succeeded, chargeId := charge)
      && forall i :: 0 <= i < |ps| && i != j ==> r[i] == ps[i]
  {
    match PaymentIndexByIntent(ps, intentId)
    case None => ps
    case Some(j) => ps[j := ps[j].(status := Succeeded, chargeId := charge)]
  }

  /** `POST /confirm`: 500 when the provider lookup fails, 400 unless the
      provider reports `succeeded`, 404 for an unknown booking; otherwise the
      booking is marked paid and confirmed, then the intent's payment is
      settled. The caller is not checked against the booking. */
  function Confirm(db: Db, intentId: string, bookingId: Id, retrieve: RetrieveIntent): (out: Outcome<Booking>)
    ensures out.reply.Fail? ==> out.db == db
    ensures retrieve(intentId).None? ==> out.reply == Fail(500, "Payment confirmation failed")
    ensures retrieve(intentId).Some? && retrieve(intentId).value.status != "succeeded" ==>
      out.reply == Fail(400, "Payment not completed")
    ensures (retrieve(intentId).Some? && retrieve(intentId).value.status == "succeeded" &&
             BookingIndex(db.bookings, bookingId).None?) ==> out.reply == Fail(404, "Booking not found")
    ensures out.reply.Ok? <==>
      retrieve(intentId).Some? && retrieve(intentId).value.status == "succeeded" &&
      BookingIndex(db.bookings, bookingId).Some?
    ensures out.reply.Ok? ==>
      var k := BookingIndex(db.bookings, bookingId).value;
      && out.reply.value == MarkPaid(db.bookings[k], intentId)
      && out.db == db.(bookings := db.bookings[k := out.reply.value],
                       payments := SettlePayment(db.payments, intentId, retrieve(intentId).value.latestCharge))
    ensures WellFormed(db) ==> WellFormed(out.db)
  {
    match retrieve(intentId)
    case None => Outcome(Fail(500, "Payment confirmation failed"), db)
    case Some(intent) =>
      if intent.status != "succeeded" then Outcome(Fail(400, "Payment not completed"), db)
      else
        match BookingIndex(db.bookings, bookingId)
        case None => Outcome(Fail(404, "Booking not found"), db)
        case Some(k) =>
          var booking := MarkPaid(db.bookings[k], intentId);
          var payments := SettlePayment(db.payments, intentId, intent.latestCharge);
          Outcome(Ok(booking), db.(bookings := db.bookings[k := booking], payments := payments))
  }

  /** Settling an intent's payment a second time changes nothing. */
  lemma SettleIdempotent(ps: seq<Payment>, intentId: string, charge: Option<string>)
    ensures SettlePayment(SettlePayment(ps, intentId, charge), intentId, charge) == SettlePayment(ps, intentId, charge)
  {
    var r := SettlePayment(ps, intentId, charge);
    if PaymentIndexByIntent(ps, intentId).Some? {
      var j := PaymentIndexByIntent(ps, intentId).value;
      assert r[j].paymentIntentId == ps[j].paymentIntentId;
      forall i | 0 <= i < j
        ensures r[i].paymentIntentId != Some(intentId)
      {
        assert r[i] == ps[i];
      }
      PaymentIndexByIntentAt(r, intentId, j);
    }
  }

  /** Replaying a confirmation with the same succeeded intent gives the same
      reply and the same store. */
  lemma ConfirmIdempotent(db: Db, intentId: string, bookingId: Id, retrieve: RetrieveIntent)
    ensures var first := Confirm(db, intentId, bookingId, retrieve);
      var second := Confirm(first.db, intentId, bookingId, retrieve);
      second.reply == first.reply && second.db == first.db
  {
    var first := Confirm(db, intentId, bookingId, retrieve);
    if first.reply.Ok? {
      var k := BookingIndex(db.bookings, bookingId).value;
      var bs := first.db.bookings;
      forall i | 0 <= i < k
        ensures bs[i].id != bookingId
      {
        assert bs[i] == db.bookings[i];
      }
      BookingIndexAt(bs, bookingId, k);
      SettleIdempotent(db.payments, intentId, retrieve(intentId).value.latestCharge);
    }
  }

  /** A payment opened for a booking is settled by the confirmation of its
      intent, provided no earlier payment carries the same intent id; the
      booking is then paid and confirmed. */
  lemma CreateThenConfirm(db: Db, requester: Id, bookingId: Id, create: CreateIntent, retrieve: RetrieveIntent)
    requires CreatePaymentIntent(db, requester, bookingId, create).reply.Ok?
    requires var intentId := CreatePaymentIntent(db, requester, bookingId, create).reply.value.paymentIntentId;
      && (forall i :: 0 <= i < |db.payments| ==> db.payments[i].paymentIntentId != Some(intentId))
      && retrieve(intentId).Some? && retrieve(intentId).value.status == "succeeded"
    ensures var setup := CreatePaymentIntent(db, requester, bookingId, create);
      var intentId := setup.reply.value.paymentIntentId;
      var out := Confirm(setup.db, intentId, bookingId, retrieve);
      && out.reply.Ok?
      && out.reply.value.status == Confirmed && out.reply.value.paymentStatus == Paid
      && out.db.payments[|db.payments|].id == setup.reply.value.paymentId
      && out.db.payments[|db.payments|].status == Succeeded
      && out.db.payments[|db.payments|].chargeId == retrieve(intentId).value.latestCharge
  {
    var setup := CreatePaymentIntent(db, requester, bookingId, create);
    var intentId := setup.reply.value.paymentIntentId;
    var ps := setup.db.payments;
    forall i | 0 <= i < |db.payments|
      ensures ps[i].paymentIntentId != Some(intentId)
    {
      assert ps[i] == db.payments[i];
    }
    PaymentIndexByIntentAt(ps, intentId, |db.payments|);
  }

  /** Confirming the payment of a booking that still holds its slot keeps
      the ledger free of double bookings. */
  lemma ConfirmKeepsNoDoubleBooking(db: Db, intentId: string, bookingId: Id, retrieve: RetrieveIntent)
    requires NoDoubleBooking(db.bookings)
    requires forall i :: 0 <= i < |db.bookings| && db.bookings[i].id == bookingId ==> BlocksSlot(db.bookings[i])
    ensures NoDoubleBooking(Confirm(db, intentId, bookingId, retrieve).db.bookings)
  {
    var out := Confirm(db, intentId, bookingId, retrieve);
    if out.reply.Ok? {
      var k := BookingIndex(db.bookings, bookingId).value;
      var bs, bs' := db.bookings, out.db.bookings;
      forall i, j | 0 <= i < |bs'| && 0 <= j < |bs'| && i != j
        ensures !Clash(bs'[i], bs'[j])
      {
        assert !Clash(bs[i], bs[j]);
      }
    }
  }

  /** Confirmation does not look at the booking's status: a payment that
      succeeds for a booking cancelled in the meantime brings it back as
      confirmed on a slot someone else now holds. */
  lemma ConfirmRevivesCancelled()
    ensures var court := CourtSnapshot(2, "Court A", "tennis");
      var first := NewBooking(5, 7, 0, court, 10, "10:00", "11:00", 1, 2000).(status := Cancelled);
      var second := NewBooking(6, 8, 0, court, 10, "10:00", "11:00", 1, 2000);
      var db := Db([], [first, second], [], 9);
      var out := Confirm(db, "pi_1", 5, (id: string) => Some(RetrievedIntent("succeeded", None)));
      && NoDoubleBooking(db.bookings)
      && out.reply.Ok?
      && !NoDoubleBooking(out.db.bookings)
  {
    var court := CourtSnapshot(2, "Court A", "tennis");
    var first := NewBooking(5, 7, 0, court, 10, "10:00", "11:00", 1, 2000).(status := Cancelled);
    var second := NewBooking(6, 8, 0, court, 10, "10:00", "11:00", 1, 2000);
    var db := Db([], [first, second], [], 9);
    var out := Confirm(db, "pi_1", 5, (id: string) => Some(RetrievedIntent("succeeded", None)));
    assert BookingIndex(db.bookings, 5) == Some(0);
    TenBeforeEleven();
    assert Clash(out.db.bookings[0], out.db.bookings[1]);
  }

  /** "10:00" sorts before "11:00" in the store. */
  lemma TenBeforeEleven()
    ensures StrLess("10:00", "11:00")
  {
    assert "10:00"[1..] == "0:00" && "11:00"[1..] == "1:00";
  }

  // ---------------------------------------------------------------------------
  // The handlers, as steps on the shared store

  /** `POST /create-payment-intent`. */
  method HandleCreatePaymentIntent(store: Store, requester: Id, bookingId: Id, create: CreateIntent)
    returns (reply: Reply<IntentReply>)
    requires store.Valid()
    modifies store
    ensures store.Valid()
    ensures reply == CreatePaymentIntent(old(store.Snapshot()), requester, bookingId, create).reply
    ensures store.Snapshot() == CreatePaymentIntent(old(store.Snapshot()), requester, bookingId, create).db
  {
    var k := BookingIndex(store.bookings, bookingId);
    if k.None? {
      return Fail(404, "Booking not found");
    }
    var b := store.bookings[k.value];
    if b.user != requester {
      return Fail(403, "Unauthorized");
    }
    if FacilityIndex(store.facilities, b.facility).None? {
      return Fail(500, "Payment setup failed");
    }
    var intent := create(IntentFor(b));
    if intent.None? {
      return Fail(500, "Payment setup failed");
    }
    var id := store.FreshId();
    var payment := Payment(id, b.id, requester, b.totalAmount, "usd", Stripe, Created,
                           Some(intent.value.id), None, None);
    store.payments := store.payments + [payment];
    reply := Ok(IntentReply(intent.value.clientSecret, intent.value.id, payment.id));
  }

  /** `POST /confirm`: the booking is saved first, then the payment updated. */
  method HandleConfirm(store: Store, intentId: string, bookingId: Id, retrieve: RetrieveIntent)
    returns (reply: Reply<Booking>)
    requires store.Valid()
    modifies store
    ensures store.Valid()
    ensures reply == Confirm(old(store.Snapshot()), intentId, bookingId, retrieve).reply
    ensures store.Snapshot() == Confirm(old(store.Snapshot()), intentId, bookingId, retrieve).db
  {
    var intent := retrieve(intentId);
    if intent.None? {
      return Fail(500, "Payment confirmation failed");
    }
    if intent.value.status != "succeeded" {
      return Fail(400, "Payment not completed");
    }
    var k := BookingIndex(store.bookings, bookingId);
    if k.None? {
      return Fail(404, "Booking not found");
    }
    var booking := store.bookings[k.value];
    booking := booking.(paymentStatus := Paid);
    booking := booking.(status := Confirmed);
    booking := booking.(paymentId := Some(intentId));
    store.bookings := store.bookings[k.value := booking];
    var j := PaymentIndexByIntent(store.payments, intentId);
    if j.Some? {
      store.payments := store.payments[j.value := store.payments[j.value].(status := Succeeded,
                                                                          chargeId := intent.value.latestCharge)];
    }
    reply := Ok(booking);
  }
}
