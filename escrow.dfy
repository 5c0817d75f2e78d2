/** The escrow store: bookings, payments, provider payouts, rooms and the users the
    core reads, updated in place by the operations of `BookingService`,
    `PaymentService` and `ProviderPayoutService`. One operation runs at a time and
    each reads the clock once, as `now`. */
module Escrow {
  import opened Text
  import opened Domain
  import opened PaymentDtos
  import opened EscrowSpec

  /** The loop of `expireUnpaidAwaitingPayments` over the due bookings: a booking with a
      blocking payment is skipped, any other is expired, its room listed, and counted. */
  method SweepUnpaid(bookings: map<nat, Booking>, rooms: map<nat, Room>, due: set<nat>, payments: seq<Payment>)
    returns (bs: map<nat, Booking>, rs: map<nat, Room>, n: nat)
    requires due <= bookings.Keys
    ensures bs == WithStatus(bookings, Unblocked(due, payments), ExpiredUnpaid)
    ensures rs == WithAvailability(rooms, RoomsOf(bookings, Unblocked(due, payments)), true)
    ensures n == |Unblocked(due, payments)|
  {
    bs, rs := bookings, rooms;
    ghost var done: set<nat> := {};
    ghost var gone: set<nat> := {};
    var todo := due;
    n := 0;
    while todo != {}
      invariant todo <= due && done == due - todo
      invariant gone == Unblocked(done, payments)
      invariant bs == WithStatus(bookings, gone, ExpiredUnpaid)
      invariant rs == WithAvailability(rooms, RoomsOf(bookings, gone), true)
      invariant n == |gone|
      decreases |todo|
    {
      var id :| id in todo;
      UnblockedStep(done, payments, id);
      if !HasActivePayment(payments, id) {
        SweepStep(bookings, rooms, gone, id, ExpiredUnpaid);
        var b := bs[id];
        bs := bs[id := b.(status := ExpiredUnpaid)];
        rs := SetAvailable(rs, b.room, true);
        n := n + 1;
        gone := gone + {id};
      }
      todo := todo - {id};
      done := done + {id};
    }
    assert done == due;
  }

  /** The loop of `expireNoVisit`: every due booking is expired, its room listed, and counted. */
  method SweepNoVisit(bookings: map<nat, Booking>, rooms: map<nat, Room>, due: set<nat>)
    returns (bs: map<nat, Booking>, rs: map<nat, Room>, n: nat)
    requires due <= bookings.Keys
    ensures bs == WithStatus(bookings, due, ExpiredNoVisit)
    ensures rs == WithAvailability(rooms, RoomsOf(bookings, due), true)
    ensures n == |due|
  {
    bs, rs := bookings, rooms;
    ghost var done: set<nat> := {};
    var todo := due;
    n := 0;
    while todo != {}
      invariant todo <= due && done == due - todo
      invariant bs == WithStatus(bookings, done, ExpiredNoVisit)
      invariant rs == WithAvailability(rooms, RoomsOf(bookings, done), true)
      invariant n + |todo| == |due|
      decreases |todo|
    {
      var id :| id in todo;
      assert id in bookings && id !in done;
      SweepStep(bookings, rooms, done, id, ExpiredNoVisit);
      var b := bs[id];
      bs := bs[id := b.(status := ExpiredNoVisit)];
      rs := SetAvailable(rs, b.room, true);
      n := n + 1;
      assert |todo - {id}| == |todo| - 1;
      todo := todo - {id};
      done := done + {id};
    }
  }

  class EscrowStore {
    /** user id -> email (the only user field the core reads) */
    var users: map<nat, Option<string>>
    var rooms: map<nat, Room>
    var bookings: map<nat, Booking>
    /** identity generator for bookings: ids are never reused */
    var nextBookingId: nat
    /** payments by id (= index), in insertion order */
    var payments: seq<Payment>
    /** provider payouts by id (= index), in insertion order */
    var payouts: seq<ProviderPayout>

    ghost predicate Valid()
      reads this
    {
      (forall id :: id in bookings ==> id < nextBookingId) && AllWellFormed(bookings)
    }

    constructor (users: map<nat, Option<string>>, rooms: map<nat, Room>)
      ensures Valid()
      ensures this.users == users && this.rooms == rooms
      ensures bookings == map[] && nextBookingId == 0 && payments == [] && payouts == []
    {
      this.users := users;
      this.rooms := rooms;
      bookings := map[];
      nextBookingId := 0;
      payments := [];
      payouts := [];
    }

    /** The tables `listPayments` reads. */
    function Snapshot(): Tables
      reads this
    {
      Tables(users, bookings, payments, payouts)
    }

    // ============================================================ BookingService

    /** `createBooking`: a fresh booking in PENDING_REQUEST for a known renter and room. */
    method CreateBooking(renterId: nat, roomId: nat, now: int) returns (r: Result<string>)
      requires Valid()
      modifies this
      ensures Valid()
      ensures renterId !in users || roomId !in rooms ==> r == Err(NoSuchElement) && unchanged(this)
      ensures renterId in users && roomId in rooms ==>
        && r == Ok("Booking request sent and provider notified!")
        && old(nextBookingId) !in old(bookings)
        && bookings == old(bookings)[old(nextBookingId) :=
             Booking(renterId, roomId, PendingRequest, now, None, None, None, None, NoDecision, None)]
        && nextBookingId == old(nextBookingId) + 1
        && users == old(users) && rooms == old(rooms) && payments == old(payments) && payouts == old(payouts)
    {
      if renterId !in users || roomId !in rooms {
        return Err(NoSuchElement);
      }
      var e := new BookingEntity(renterId, roomId);
      e.status := Some(PendingRequest);
      e.OnCreate(now);
      bookings := bookings[nextBookingId := e.Row()];
      nextBookingId := nextBookingId + 1;
      r := Ok("Booking request sent and provider notified!");
    }

    /** `respondBooking`: "approve" or "decline" in any letter case, from any prior status. */
    method RespondBooking(bookingId: nat, action: string, now: int) returns (r: Result<string>)
      requires Valid()
      modifies this
      ensures Valid() && BookingStampsKept(old(bookings), bookings)
      ensures users == old(users) && payments == old(payments) && payouts == old(payouts)
      ensures nextBookingId == old(nextBookingId)
      ensures bookingId !in old(bookings) ==> r == Err(NoSuchElement) && unchanged(this)
      ensures bookingId in old(bookings) && EqualsIgnoreCase("approve", action) ==>
        var b := old(bookings)[bookingId];
        && r == Ok("Approved.")
        && bookings == old(bookings)[bookingId := b.(status := AwaitingPayment, approvedAt := Some(now),
                                                     paymentDeadline := Some(now + ThreeDaysMs))]
        && rooms == SetAvailable(old(rooms), b.room, false)
      ensures bookingId in old(bookings) && !EqualsIgnoreCase("approve", action) && EqualsIgnoreCase("decline", action) ==>
        && r == Ok("Declined.")
        && bookings == old(bookings)[bookingId := old(bookings)[bookingId].(status := Declined)]
        && rooms == old(rooms)
      ensures bookingId in old(bookings) && !EqualsIgnoreCase("approve", action) && !EqualsIgnoreCase("decline", action) ==>
        r == Ok("Invalid action") && unchanged(this)
    {
      if bookingId !in bookings {
        return Err(NoSuchElement);
      }
      var b := bookings[bookingId];
      if EqualsIgnoreCase("approve", action) {
        bookings := bookings[bookingId := b.(status := AwaitingPayment, approvedAt := Some(now),
                                             paymentDeadline := Some(now + ThreeDaysMs))];
        rooms := SetAvailable(rooms, b.room, false);
        return Ok("Approved.");
      } else if EqualsIgnoreCase("decline", action) {
        bookings := bookings[bookingId := b.(status := Declined)];
        return Ok("Declined.");
      }
      r := Ok("Invalid action");
    }

    /** `cancelPending`: deletes a booking, but only one still in PENDING_REQUEST. */
    method CancelPending(bookingId: nat) returns (r: Result<string>)
      requires Valid()
      modifies this
      ensures Valid()
      ensures bookingId !in old(bookings) ==> r == Err(NoSuchElement) && unchanged(this)
      ensures bookingId in old(bookings) && old(bookings)[bookingId].status != PendingRequest ==>
        r == Ok("Only pending can be cancelled.") && unchanged(this)
      ensures bookingId in old(bookings) && old(bookings)[bookingId].status == PendingRequest ==>
        && r == Ok("Cancelled.")
        && bookings == old(bookings) - {bookingId}
        && users == old(users) && rooms == old(rooms) && payments == old(payments)
        && payouts == old(payouts) && nextBookingId == old(nextBookingId)
    {
      if bookingId !in bookings {
        return Err(NoSuchElement);
      }
      if bookings[bookingId].status != PendingRequest {
        return Ok("Only pending can be cancelled.");
      }
      bookings := bookings - {bookingId};
      r := Ok("Cancelled.");
    }

    /** `requestRefundDecision`: records the renter's refund request during the visit window. */
    method RequestRefundDecision(bookingId: nat, note: Option<string>) returns (r: Result<string>)
      requires Valid()
      modifies this
      ensures Valid()
      ensures bookingId !in old(bookings) ==> r == Err(NoSuchElement) && unchanged(this)
      ensures bookingId in old(bookings) && old(bookings)[bookingId].status != PaidConfirmed ==>
        r == Ok("You can only request refund during the visit window.") && unchanged(this)
      ensures bookingId in old(bookings) && old(bookings)[bookingId].status == PaidConfirmed ==>
        && r == Ok("Refund request placed. Waiting for admin.")
        && bookings == old(bookings)[bookingId :=
             old(bookings)[bookingId].(decision := RefundRequested, decisionNote := note)]
        && users == old(users) && rooms == old(rooms) && payments == old(payments)
        && payouts == old(payouts) && nextBookingId == old(nextBookingId)
    {
      if bookingId !in bookings {
        return Err(NoSuchElement);
      }
      var b := bookings[bookingId];
      if b.status != PaidConfirmed {
        return Ok("You can only request refund during the visit window.");
      }
      bookings := bookings[bookingId := b.(decision := RefundRequested, decisionNote := note)];
      r := Ok("Refund request placed. Waiting for admin.");
    }

    /** `requestCompleteDecision`: records the renter's wish to complete during the visit window. */
    method RequestCompleteDecision(bookingId: nat, note: Option<string>) returns (r: Result<string>)
      requires Valid()
      modifies this
      ensures Valid()
      ensures bookingId !in old(bookings) ==> r == Err(NoSuchElement) && unchanged(this)
      ensures bookingId in old(bookings) && old(bookings)[bookingId].status != PaidConfirmed ==>
        r == Ok("You can only confirm completion during the visit window.") && unchanged(this)
      ensures bookingId in old(bookings) && old(bookings)[bookingId].status == PaidConfirmed ==>
        && r == Ok("Completion request placed. Waiting for admin.")
        && bookings == old(bookings)[bookingId :=
             old(bookings)[bookingId].(decision := CompleteRequested, decisionNote := note)]
        && users == old(users) && rooms == old(rooms) && payments == old(payments)
        && payouts == old(payouts) && nextBookingId == old(nextBookingId)
    {
      if bookingId !in bookings {
        return Err(NoSuchElement);
      }
      var b := bookings[bookingId];
      if b.status != PaidConfirmed {
        return Ok("You can only confirm completion during the visit window.");
      }
      bookings := bookings[bookingId := b.(decision := CompleteRequested, decisionNote := note)];
      r := Ok("Completion request placed. Waiting for admin.");
    }

    /** `expireUnpaidAwaitingPayments`: every AWAITING_PAYMENT booking whose deadline is
        strictly before `now` and that has no PENDING or CONFIRMED payment becomes
        EXPIRED_UNPAID and frees its room; the count of expired bookings is returned. */
    method ExpireUnpaid(now: int) returns (n: nat)
      requires Valid()
      modifies this
      ensures Valid() && BookingStampsKept(old(bookings), bookings)
      ensures bookings == WithStatus(old(bookings), UnpaidExpired(old(bookings), old(payments), now), ExpiredUnpaid)
      ensures rooms == WithAvailability(old(rooms), RoomsOf(old(bookings), UnpaidExpired(old(bookings), old(payments), now)), true)
      ensures n == |UnpaidExpired(old(bookings), old(payments), now)|
      ensures users == old(users) && payments == old(payments) && payouts == old(payouts)
      ensures nextBookingId == old(nextBookingId)
    {
      var bs, rs;
      UnpaidExpiredUnblocked(bookings, payments, now);
      bs, rs, n := SweepUnpaid(bookings, rooms, UnpaidDue(bookings, now), payments);
      WithStatusWellFormed(bookings, UnpaidExpired(bookings, payments, now), ExpiredUnpaid);
      bookings, rooms := bs, rs;
    }

    /** `expireNoVisit`: every PAID_CONFIRMED booking whose viewing deadline is strictly
        before `now` becomes EXPIRED_NO_VISIT, whatever the renter's decision, and frees
        its room; the count of expired bookings is returned. */
    method ExpireNoVisit(now: int) returns (n: nat)
      requires Valid()
      modifies this
      ensures Valid() && BookingStampsKept(old(bookings), bookings)
      ensures bookings == WithStatus(old(bookings), NoVisitDue(old(bookings), now), ExpiredNoVisit)
      ensures rooms == WithAvailability(old(rooms), RoomsOf(old(bookings), NoVisitDue(old(bookings), now)), true)
      ensures n == |NoVisitDue(old(bookings), now)|
      ensures users == old(users) && payments == old(payments) && payouts == old(payouts)
      ensures nextBookingId == old(nextBookingId)
    {
      var bs, rs;
      bs, rs, n := SweepNoVisit(bookings, rooms, NoVisitDue(bookings, now));
      WithStatusWellFormed(bookings, NoVisitDue(bookings, now), ExpiredNoVisit);
      bookings, rooms := bs, rs;
    }

    /** Legacy `completeBooking`: COMPLETED from any status, room kept off the market. */
    method CompleteBooking(bookingId: nat) returns (r: Result<string>)
      requires Valid()
      modifies this
      ensures Valid()
      ensures bookingId !in old(bookings) ==> r == Err(NoSuchElement) && unchanged(this)
      ensures bookingId in old(bookings) ==>
        && r == Ok("Booking completed.")
        && bookings == old(bookings)[bookingId := old(bookings)[bookingId].(status := Completed)]
        && rooms == SetAvailable(old(rooms), old(bookings)[bookingId].room, false)
        && users == old(users) && payments == old(payments) && payouts == old(payouts)
        && nextBookingId == old(nextBookingId)
    {
      if bookingId !in bookings {
        return Err(NoSuchElement);
      }
      var b := bookings[bookingId];
      bookings := bookings[bookingId := b.(status := Completed)];
      rooms := SetAvailable(rooms, b.room, false);
      r := Ok("Booking completed.");
    }

    /** Legacy `cancelAfterViewing`: CANCELLED_AFTER_VIEWING from any status, room listed again. */
    method CancelAfterViewing(bookingId: nat) returns (r: Result<string>)
      requires Valid()
      modifies this
      ensures Valid()
      ensures bookingId !in old(bookings) ==> r == Err(NoSuchElement) && unchanged(this)
      ensures bookingId in old(bookings) ==>
        && r == Ok("Booking cancelled after viewing.")
        && bookings == old(bookings)[bookingId := old(bookings)[bookingId].(status := CancelledAfterViewing)]
        && rooms == SetAvailable(old(rooms), old(bookings)[bookingId].room, true)
        && users == old(users) && payments == old(payments) && payouts == old(payouts)
        && nextBookingId == old(nextBookingId)
    {
      if bookingId !in bookings {
        return Err(NoSuchElement);
      }
      var b := bookings[bookingId];
      bookings := bookings[bookingId := b.(status := CancelledAfterViewing)];
      rooms := SetAvailable(rooms, b.room, true);
      r := Ok("Booking cancelled after viewing.");
    }

    // ============================================================ PaymentService

    /** `payEscrow`: a renter's deposit for an AWAITING_PAYMENT booking becomes a new PENDING
        payment; the booking is not touched and earlier PENDING payments do not prevent it. */
    method PayEscrow(bookingId: nat, amount: real, payMethod: Option<string>, reference: Option<string>,
                     payerName: Option<string>, payerPhone: Option<string>, txnId: Option<string>,
                     note: Option<string>, now: int) returns (r: Result<Payment>)
      requires Valid()
      modifies this
      ensures Valid()
      ensures bookingId !in old(bookings) ==> r == Err(IllegalArgument("Booking not found")) && unchanged(this)
      ensures bookingId in old(bookings) && old(bookings)[bookingId].status != AwaitingPayment ==>
        r == Err(IllegalState("Booking is not awaiting payment.")) && unchanged(this)
      ensures bookingId in old(bookings) && old(bookings)[bookingId].status == AwaitingPayment ==>
        && r == Ok(Payment(Some(bookingId), None, amount, payMethod, reference, payerName, payerPhone,
                           txnId, note, Pending, now, None, None))
        && payments == old(payments) + [r.value]
        && users == old(users) && rooms == old(rooms) && bookings == old(bookings)
        && payouts == old(payouts) && nextBookingId == old(nextBookingId)
    {
      if bookingId !in bookings {
        return Err(IllegalArgument("Booking not found"));
      }
      if bookings[bookingId].status != AwaitingPayment {
        return Err(IllegalState("Booking is not awaiting payment."));
      }
      var e := new PaymentEntity(bookingId, amount, payMethod, reference, payerName, payerPhone,
                                 txnId, note, Some(Pending), Some(now));
      e.OnCreate(now);
      var p := e.Row();
      payments := payments + [p];
      r := Ok(p);
    }

    /** The booking a payment belongs to, when it exists (Java's non-null `getBooking()`). */
    function BookingOf(p: Payment): Option<nat>
      reads this
    {
      if p.booking.Some? && p.booking.value in bookings then p.booking else None
    }

    /** `confirmPayment`: a PENDING payment becomes CONFIRMED; its booking enters the
        three-day visit window with the decision reset, and its room is taken off the market. */
    method ConfirmPayment(paymentId: nat, now: int) returns (r: Result<Payment>)
      requires Valid()
      modifies this
      ensures Valid() && BookingStampsKept(old(bookings), bookings) && PaymentStampsKept(old(payments), payments)
      ensures paymentId >= |old(payments)| ==> r == Err(IllegalArgument("Payment not found")) && unchanged(this)
      ensures paymentId < |old(payments)| && old(payments)[paymentId].status != Pending ==>
        r == Err(IllegalState("Only PENDING payments can be confirmed.")) && unchanged(this)
      ensures paymentId < |old(payments)| && old(payments)[paymentId].status == Pending ==>
        var p := old(payments)[paymentId];
        var bid := old(BookingOf(p));
        && r == Ok(p.(status := PaymentStatus.Confirmed, confirmedAt := Some(now)))
        && payments == old(payments)[paymentId := r.value]
        && (bid.None? ==> bookings == old(bookings) && rooms == old(rooms))
        && (bid.Some? ==>
              var b := old(bookings)[bid.value];
              && bookings == old(bookings)[bid.value := b.(status := PaidConfirmed, paymentConfirmedAt := Some(now),
                                                          viewingDeadline := Some(now + ThreeDaysMs),
                                                          decision := NoDecision, decisionNote := None)]
              && rooms == SetAvailable(old(rooms), b.room, false))
        && users == old(users) && payouts == old(payouts) && nextBookingId == old(nextBookingId)
    {
      if paymentId >= |payments| {
        return Err(IllegalArgument("Payment not found"));
      }
      var p := payments[paymentId];
      if p.status != Pending {
        return Err(IllegalState("Only PENDING payments can be confirmed."));
      }
      var bid := BookingOf(p);
      var confirmed := p.(status := PaymentStatus.Confirmed, confirmedAt := Some(now));
      payments := payments[paymentId := confirmed];
      if bid.Some? {
        var b := bookings[bid.value];
        bookings := bookings[bid.value := b.(status := PaidConfirmed, paymentConfirmedAt := Some(now),
                                             viewingDeadline := Some(now + ThreeDaysMs),
                                             decision := NoDecision, decisionNote := None)];
        rooms := SetAvailable(rooms, b.room, false);
      }
      r := Ok(confirmed);
    }

    /** `refundPayment`: REFUNDED with a refund stamp; a payment already REFUNDED is returned
        unchanged. The booking is not modified. */
    method RefundPayment(paymentId: nat, now: int) returns (r: Result<Payment>)
      requires Valid()
      modifies this
      ensures Valid() && PaymentStampsKept(old(payments), payments)
      ensures paymentId >= |old(payments)| ==> r == Err(IllegalArgument("Payment not found")) && unchanged(this)
      ensures paymentId < |old(payments)| && old(payments)[paymentId].status == Refunded ==>
        r == Ok(old(payments)[paymentId]) && unchanged(this)
      ensures paymentId < |old(payments)| && old(payments)[paymentId].status != Refunded ==>
        && r == Ok(old(payments)[paymentId].(status := Refunded, refundedAt := Some(now)))
        && payments == old(payments)[paymentId := r.value]
        && users == old(users) && rooms == old(rooms) && bookings == old(bookings)
        && payouts == old(payouts) && nextBookingId == old(nextBookingId)
    {
      if paymentId >= |payments| {
        return Err(IllegalArgument("Payment not found"));
      }
      var p := payments[paymentId];
      if p.status == Refunded {
        return Ok(p);
      }
      var refunded := p.(status := Refunded, refundedAt := Some(now));
      payments := payments[paymentId := refunded];
      r := Ok(refunded);
    }

    /** The DTO of payment `k` against the current tables. */
    function DtoOf(k: nat): PaymentDto
      reads this
      requires k < |payments|
    {
      From(k, payments[k], ViewOf(users, bookings, payments[k]))
    }

    /** `refundAndCancel`: a CONFIRMED payment with a booking is refunded, the booking is
        cancelled after viewing with both windows and the decision cleared, the room is listed. */
    method RefundAndCancel(paymentId: nat, now: int) returns (r: Result<PaymentDto>)
      requires Valid()
      modifies this
      ensures Valid() && BookingStampsKept(old(bookings), bookings) && PaymentStampsKept(old(payments), payments)
      ensures paymentId >= |old(payments)| ==> r == Err(IllegalArgument("Payment not found")) && unchanged(this)
      ensures paymentId < |old(payments)| && old(BookingOf(payments[paymentId])).None? ==>
        r == Err(IllegalArgument("Booking not found for payment")) && unchanged(this)
      ensures paymentId < |old(payments)| && old(BookingOf(payments[paymentId])).Some?
              && old(payments)[paymentId].status != PaymentStatus.Confirmed ==>
        r == Err(IllegalState("Refund & cancel requires a CONFIRMED payment.")) && unchanged(this)
      ensures paymentId < |old(payments)| && old(BookingOf(payments[paymentId])).Some?
              && old(payments)[paymentId].status == PaymentStatus.Confirmed ==>
        var bid := old(payments)[paymentId].booking.value;
        var b := old(bookings)[bid];
        && payments == old(payments)[paymentId := old(payments)[paymentId].(status := Refunded, refundedAt := Some(now))]
        && bookings == old(bookings)[bid := b.(status := CancelledAfterViewing, decision := NoDecision,
                                               decisionNote := None, viewingDeadline := None, paymentDeadline := None)]
        && rooms == SetAvailable(old(rooms), b.room, true)
        && r == Ok(DtoOf(paymentId))
        && users == old(users) && payouts == old(payouts) && nextBookingId == old(nextBookingId)
    {
      if paymentId >= |payments| {
        return Err(IllegalArgument("Payment not found"));
      }
      var p := payments[paymentId];
      var bid := BookingOf(p);
      if bid.None? {
        return Err(IllegalArgument("Booking not found for payment"));
      }
      if p.status != PaymentStatus.Confirmed {
        return Err(IllegalState("Refund & cancel requires a CONFIRMED payment."));
      }
      payments := payments[paymentId := p.(status := Refunded, refundedAt := Some(now))];
      var b := bookings[bid.value];
      bookings := bookings[bid.value := b.(status := CancelledAfterViewing, decision := NoDecision,
                                           decisionNote := None, viewingDeadline := None, paymentDeadline := None)];
      rooms := SetAvailable(rooms, b.room, true);
      r := Ok(DtoOf(paymentId));
    }

    /** `completeAndRelease`: for a CONFIRMED payment with a booking, the booking is COMPLETED
        with the decision cleared and the room kept off the market; the payment stays CONFIRMED. */
    method CompleteAndRelease(paymentId: nat) returns (r: Result<PaymentDto>)
      requires Valid()
      modifies this
      ensures Valid() && BookingStampsKept(old(bookings), bookings)
      ensures paymentId >= |old(payments)| ==> r == Err(IllegalArgument("Payment not found")) && unchanged(this)
      ensures paymentId < |old(payments)| && old(BookingOf(payments[paymentId])).None? ==>
        r == Err(IllegalArgument("Booking not found for payment")) && unchanged(this)
      ensures paymentId < |old(payments)| && old(BookingOf(payments[paymentId])).Some?
              && old(payments)[paymentId].status != PaymentStatus.Confirmed ==>
        r == Err(IllegalState("Complete & release requires a CONFIRMED payment.")) && unchanged(this)
      ensures paymentId < |old(payments)| && old(BookingOf(payments[paymentId])).Some?
              && old(payments)[paymentId].status == PaymentStatus.Confirmed ==>
        var bid := old(payments)[paymentId].booking.value;
        var b := old(bookings)[bid];
        && payments == old(payments)
        && bookings == old(bookings)[bid := b.(status := Completed, decision := NoDecision, decisionNote := None)]
        && rooms == SetAvailable(old(rooms), b.room, false)
        && r == Ok(DtoOf(paymentId))
        && users == old(users) && payouts == old(payouts) && nextBookingId == old(nextBookingId)
    {
      if paymentId >= |payments| {
        return Err(IllegalArgument("Payment not found"));
      }
      var p := payments[paymentId];
      var bid := BookingOf(p);
      if bid.None? {
        return Err(IllegalArgument("Booking not found for payment"));
      }
      if p.status != PaymentStatus.Confirmed {
        return Err(IllegalState("Complete & release requires a CONFIRMED payment."));
      }
      var b := bookings[bid.value];
      bookings := bookings[bid.value := b.(status := Completed, decision := NoDecision, decisionNote := None)];
      rooms := SetAvailable(rooms, b.room, false);
      r := Ok(DtoOf(paymentId));
    }

    // ============================================================ ProviderPayoutService

    /** `request`: a provider asks for the payout of a COMPLETED booking; a new REQUESTED
        payout is appended (repeated requests are kept), the booking is not modified. */
    method RequestPayout(bookingId: nat, payMethod: Option<string>, account: Option<string>,
                         roomCode: Option<string>, now: int) returns (r: Result<ProviderPayout>)
      requires Valid()
      modifies this
      ensures Valid()
      ensures bookingId !in old(bookings) ==> r == Err(IllegalArgument("Booking not found")) && unchanged(this)
      ensures bookingId in old(bookings) && old(bookings)[bookingId].status != Completed ==>
        r == Err(IllegalState("Payout can be requested only after completion.")) && unchanged(this)
      ensures bookingId in old(bookings) && old(bookings)[bookingId].status == Completed ==>
        var room := old(bookings)[bookingId].room;
        var email := if room in old(rooms) && old(rooms)[room].provider in old(users)
                     then old(users)[old(rooms)[room].provider] else None;
        && r == Ok(ProviderPayout(bookingId, email, roomCode, payMethod, account, Requested, now, None))
        && payouts == old(payouts) + [r.value]
        && users == old(users) && rooms == old(rooms) && bookings == old(bookings)
        && payments == old(payments) && nextBookingId == old(nextBookingId)
    {
      if bookingId !in bookings {
        return Err(IllegalArgument("Booking not found"));
      }
      var b := bookings[bookingId];
      if b.status != Completed {
        return Err(IllegalState("Payout can be requested only after completion."));
      }
      var email := if b.room in rooms && rooms[b.room].provider in users then users[rooms[b.room].provider] else None;
      var p := ProviderPayout(bookingId, email, roomCode, payMethod, account, Requested, now, None);
      payouts := payouts + [p];
      r := Ok(p);
    }

    /** `getByBooking`: the booking's payout with the latest createdAt, or a failure when it has none. */
    function GetByBooking(bookingId: nat): (r: Result<ProviderPayout>)
      reads this
      ensures r.Err? <==> forall j :: 0 <= j < |payouts| ==> payouts[j].booking != bookingId
      ensures r.Err? ==> r.failure == IllegalArgument("No payout found for booking")
      ensures r.Ok? ==> r.value in payouts && r.value.booking == bookingId
      ensures r.Ok? ==> forall j :: 0 <= j < |payouts| && payouts[j].booking == bookingId ==>
                payouts[j].createdAt <= r.value.createdAt
    {
      var k := NewestPayout(payouts, bookingId, |payouts|);
      if k.Some? then Ok(payouts[k.value]) else Err(IllegalArgument("No payout found for booking"))
    }

    /** `markPaid`: PAID with `paidAt = now` from any prior status (a second call re-stamps). */
    method MarkPaid(payoutId: nat, now: int) returns (r: Result<ProviderPayout>)
      requires Valid()
      modifies this
      ensures Valid()
      ensures payoutId >= |old(payouts)| ==> r == Err(IllegalArgument("Payout not found")) && unchanged(this)
      ensures payoutId < |old(payouts)| ==>
        && r == Ok(old(payouts)[payoutId].(status := Paid, paidAt := Some(now)))
        && payouts == old(payouts)[payoutId := r.value]
        && users == old(users) && rooms == old(rooms) && bookings == old(bookings)
        && payments == old(payments) && nextBookingId == old(nextBookingId)
    {
      if payoutId >= |payouts| {
        return Err(IllegalArgument("Payout not found"));
      }
      var p := payouts[payoutId].(status := Paid, paidAt := Some(now));
      payouts := payouts[payoutId := p];
      r := Ok(p);
    }
  }

  /** In a valid store the sweeps' deadline tests are the three-day windows of
      `BookingService`: a booking is unpaid-due exactly when it was approved more than
      three days ago and still awaits payment, and no-visit-due exactly when its payment
      was confirmed more than three days ago and it is still paid-confirmed. */
  lemma DueAfterThreeDays(store: EscrowStore, now: int, id: nat)
    requires store.Valid() && id in store.bookings
    ensures var b := store.bookings[id];
            id in UnpaidDue(store.bookings, now) <==>
              b.status == AwaitingPayment && b.approvedAt.Some? && b.approvedAt.value + ThreeDaysMs < now
    ensures var b := store.bookings[id];
            id in NoVisitDue(store.bookings, now) <==>
              b.status == PaidConfirmed && b.paymentConfirmedAt.Some? && b.paymentConfirmedAt.value + ThreeDaysMs < now
  {
    assert WellFormed(store.bookings[id]);
  }
}
