/** `PaymentDto.from`: the flat view of a payment sent to the admin UI, with the
    booking fields that exist only when the payment has a booking. */
module PaymentDtos {
  import opened Domain

  /** The renter of a booking as `from` sees it: present or not, with a possibly null email. */
  datatype Renter = Renter(email: Option<string>)

  /** What `from` reads of a payment's booking (the booking id, the row, its renter). */
  datatype BookingView = BookingView(id: nat, booking: Booking, renter: Option<Renter>)

  datatype PaymentDto = PaymentDto(
    id: nat,
    bookingId: Option<nat>,
    renterEmail: Option<string>,
    amount: real,
    payMethod: Option<string>,
    reference: Option<string>,
    payerName: Option<string>,
    payerPhone: Option<string>,
    roomCode: Option<string>,
    txnId: Option<string>,
    note: Option<string>,
    status: Option<string>,
    createdAt: Option<int>,
    confirmedAt: Option<int>,
    refundedAt: Option<int>,
    paymentDeadline: Option<int>,
    viewingDeadline: Option<int>,
    decisionStatus: Option<string>,
    decisionNote: Option<string>,
    bookingStatus: Option<string>,
    providerPayoutStatus: Option<string>)

  /** `PaymentDto.from(p)` for the payment with id `id`; `view` is its booking, if any. */
  function From(id: nat, p: Payment, view: Option<BookingView>): (d: PaymentDto)
    // without a booking every booking-derived field stays null
    ensures view.None? ==>
      d.bookingId.None? && d.renterEmail.None? && d.paymentDeadline.None? && d.viewingDeadline.None?
      && d.decisionStatus.None? && d.decisionNote.None? && d.bookingStatus.None?
    // with one, they are copied from it, enum values by name
    ensures view.Some? ==>
      d.bookingId == Some(view.value.id)
      && d.paymentDeadline == view.value.booking.paymentDeadline
      && d.viewingDeadline == view.value.booking.viewingDeadline
      && d.decisionStatus == Some(VisitDecisionName(view.value.booking.decision))
      && d.decisionNote == view.value.booking.decisionNote
      && d.bookingStatus == Some(StatusName(view.value.booking.status))
    // the renter email needs both a booking and a renter
    ensures d.renterEmail.Some? ==> view.Some? && view.value.renter.Some?
    ensures view.Some? && view.value.renter.Some? ==> d.renterEmail == view.value.renter.value.email
    // the payment's own fields are copied unchanged, its status by name
    ensures d.id == id && d.amount == p.amount && d.payMethod == p.payMethod && d.reference == p.reference
    ensures d.payerName == p.payerName && d.payerPhone == p.payerPhone && d.roomCode == p.roomCode
    ensures d.txnId == p.txnId && d.note == p.note
    ensures d.status == Some(PaymentStatusName(p.status))
    ensures d.createdAt == Some(p.createdAt) && d.confirmedAt == p.confirmedAt && d.refundedAt == p.refundedAt
    // the payout status is left for the caller
    ensures d.providerPayoutStatus.None?
  {
    var hasBooking := view.Some?;
    var b := if hasBooking then view.value.booking else Booking(0, 0, PendingRequest, 0, None, None, None, None, NoDecision, None);
    PaymentDto(
      id,
      if hasBooking then Some(view.value.id) else None,
      if hasBooking && view.value.renter.Some? then view.value.renter.value.email else None,
      p.amount, p.payMethod, p.reference,
      p.payerName, p.payerPhone, p.roomCode, p.txnId, p.note,
      Some(PaymentStatusName(p.status)),
      Some(p.createdAt), p.confirmedAt, p.refundedAt,
      if hasBooking then b.paymentDeadline else None,
      if hasBooking then b.viewingDeadline else None,
      if hasBooking then Some(VisitDecisionName(b.decision)) else None,
      if hasBooking then b.decisionNote else None,
      if hasBooking then Some(StatusName(b.status)) else None,
      None)
  }

  /** The DTO's status string names exactly one payment status. */
  lemma FromStatusIdentifies(id: nat, p: Payment, q: Payment, view: Option<BookingView>)
    requires From(id, p, view).status == From(id, q, view).status
    ensures p.status == q.status
  {
    PaymentStatusNameInjective(p.status, q.status);
  }
}
