/** The payment record (Payment.js): one attempt to pay for a booking. */
module PaymentModel {
  import opened Base

  /** `status`: enum created | processing | succeeded | failed | refunded. */
  datatype PaymentRecordStatus = Created | Processing | Succeeded | Failed | Refunded

  /** `provider`: the enumeration has the single value 'stripe'. */
  datatype Provider = Stripe

  /** A payment document; `amount` is in cents. The last three fields are optional. */
  datatype Payment = Payment(
    id: Id,
    booking: Id,
    user: Id,
    amount: int,
    currency: string,
    provider: Provider,
    status: PaymentRecordStatus,
    paymentIntentId: Option<string>,
    chargeId: Option<string>,
    failureReason: Option<string>)

  const DefaultCurrency: string := "usd"

  /** A payment created from the required fields: currency 'usd', provider
      'stripe', status 'created', and no intent, charge or failure yet. */
  function NewPayment(id: Id, booking: Id, user: Id, amount: int): (p: Payment)
    ensures p.currency == "usd" && p.provider == Stripe && p.status == Created
    ensures p.paymentIntentId.None? && p.chargeId.None? && p.failureReason.None?
  {
    Payment(id, booking, user, amount, DefaultCurrency, Stripe, Created, None, None, None)
  }
}
