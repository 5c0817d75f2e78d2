/** Properties that relate several escrow operations: the deadline sweeps are idempotent
    and never overlap, a refund can unblock the unpaid sweep, a fresh payout request is
    what `getByBooking` returns, and the filters of `listPayments` hold of what it lists. */
module EscrowProperties {
  import opened Text
  import opened Domain
  import opened PaymentDtos
  import opened EscrowSpec

  // ---------------------------------------------------------------- sweeps

  /** A second unpaid sweep at the same instant expires nothing. */
  lemma UnpaidSweepIdempotent(bookings: map<nat, Booking>, payments: seq<Payment>, now: int)
    ensures var after := WithStatus(bookings, UnpaidExpired(bookings, payments, now), ExpiredUnpaid);
            UnpaidExpired(after, payments, now) == {} && WithStatus(after, {}, ExpiredUnpaid) == after
  {
    var after := WithStatus(bookings, UnpaidExpired(bookings, payments, now), ExpiredUnpaid);
    forall id | id in after
      ensures id !in UnpaidExpired(after, payments, now)
    {
      if after[id].status == AwaitingPayment {
        assert id !in UnpaidExpired(bookings, payments, now);
      }
    }
  }

  /** A second no-visit sweep at the same instant expires nothing. */
  lemma NoVisitSweepIdempotent(bookings: map<nat, Booking>, now: int)
    ensures var after := WithStatus(bookings, NoVisitDue(bookings, now), ExpiredNoVisit);
            NoVisitDue(after, now) == {} && WithStatus(after, {}, ExpiredNoVisit) == after
  {
    var after := WithStatus(bookings, NoVisitDue(bookings, now), ExpiredNoVisit);
    forall id | id in after
      ensures id !in NoVisitDue(after, now)
    {
      if after[id].status == PaidConfirmed {
        assert id !in NoVisitDue(bookings, now);
      }
    }
  }

  /** The unpaid sweep touches only AWAITING_PAYMENT bookings, so the no-visit sweep that
      follows it in a tick (at its own, later clock reading) sees the due set of the
      original table, and no booking is expired twice. */
  lemma UnpaidSweepKeepsNoVisitDue(bookings: map<nat, Booking>, payments: seq<Payment>, now: int, later: int)
    ensures var expired := UnpaidExpired(bookings, payments, now);
            var after := WithStatus(bookings, expired, ExpiredUnpaid);
            && NoVisitDue(after, later) == NoVisitDue(bookings, later)
            && expired * NoVisitDue(after, later) == {}
  {
    var expired := UnpaidExpired(bookings, payments, now);
    var after := WithStatus(bookings, expired, ExpiredUnpaid);
    forall id | id in bookings
      ensures after[id].status == PaidConfirmed <==> bookings[id].status == PaidConfirmed
      ensures after[id].viewingDeadline == bookings[id].viewingDeadline
    {
    }
  }

  /** The bookings the no-visit sweep expires are exactly the due ones, whatever their
      decision, and each of them ends in EXPIRED_NO_VISIT. */
  lemma NoVisitIgnoresDecision(bookings: map<nat, Booking>, now: int, id: nat)
    requires id in bookings && bookings[id].status == PaidConfirmed && Before(bookings[id].viewingDeadline, now)
    ensures id in NoVisitDue(bookings, now)
    ensures WithStatus(bookings, NoVisitDue(bookings, now), ExpiredNoVisit)[id]
            == bookings[id].(status := ExpiredNoVisit)
  {
  }

  /** A booking is expired as unpaid exactly when it is due and no payment blocks it. */
  lemma UnpaidExpiredIff(bookings: map<nat, Booking>, payments: seq<Payment>, now: int, id: nat)
    ensures id in UnpaidExpired(bookings, payments, now) <==>
            && id in bookings && bookings[id].status == AwaitingPayment
            && Before(bookings[id].paymentDeadline, now)
            && forall k :: 0 <= k < |payments| ==> !Blocks(payments[k], id)
  {
    HasActivePaymentExists(payments, id);
  }

  // ---------------------------------------------------------------- refund unblocks

  /** Refunding the only PENDING or CONFIRMED payment of an AWAITING_PAYMENT booking, as
      `refundPayment` does, leaves nothing that blocks it: once its deadline has passed the
      unpaid sweep expires it. */
  lemma {:induction false} RefundUnblocks(bookings: map<nat, Booking>, payments: seq<Payment>, k: nat,
                                          refundedAt: int, now: int)
    requires k < |payments| && payments[k].booking.Some?
    requires forall j :: 0 <= j < |payments| && j != k ==> !Blocks(payments[j], payments[k].booking.value)
    requires var id := payments[k].booking.value;
             id in bookings && bookings[id].status == AwaitingPayment && Before(bookings[id].paymentDeadline, now)
    ensures var id := payments[k].booking.value;
            var after := payments[k := payments[k].(status := Refunded, refundedAt := Some(refundedAt))];
            !HasActivePayment(after, id) && id in UnpaidExpired(bookings, after, now)
  {
    var id := payments[k].booking.value;
    var after := payments[k := payments[k].(status := Refunded, refundedAt := Some(refundedAt))];
    HasActivePaymentExists(after, id);
    assert forall j :: 0 <= j < |after| ==> !Blocks(after[j], id);
  }

  /** Without the refund the same booking is held back by its payment. */
  lemma PendingBlocks(bookings: map<nat, Booking>, payments: seq<Payment>, k: nat, now: int)
    requires k < |payments| && payments[k].booking.Some? && payments[k].status == Pending
    ensures HasActivePayment(payments, payments[k].booking.value)
    ensures payments[k].booking.value !in UnpaidExpired(bookings, payments, now)
  {
    HasActivePaymentExists(payments, payments[k].booking.value);
  }

  // ---------------------------------------------------------------- payouts

  /** A payout requested at a time no earlier than every payout before it is the one
      `getByBooking` finds for its booking. */
  lemma NewestAfterRequest(payouts: seq<ProviderPayout>, p: ProviderPayout)
    requires forall j :: 0 <= j < |payouts| ==> payouts[j].createdAt <= p.createdAt
    ensures NewestPayout(payouts + [p], p.booking, |payouts| + 1) == Some(|payouts|)
  {
  }

  /** Requests for other bookings do not change which payout a booking's lookup finds. */
  lemma {:induction false} NewestIgnoresOthers(payouts: seq<ProviderPayout>, p: ProviderPayout, id: nat)
    requires p.booking != id
    ensures NewestPayout(payouts + [p], id, |payouts| + 1) == NewestPayout(payouts, id, |payouts|)
  {
    NewestPrefix(payouts + [p], payouts, id, |payouts|);
  }

  /** `NewestPayout` over the first `n` entries only looks at those entries. */
  lemma {:induction false} NewestPrefix(a: seq<ProviderPayout>, b: seq<ProviderPayout>, id: nat, n: nat)
    requires n <= |a| && n <= |b| && a[..n] == b[..n]
    ensures NewestPayout(a, id, n) == NewestPayout(b, id, n)
  {
    if n > 0 {
      assert a[..n - 1] == b[..n - 1] by {
        assert a[..n - 1] == a[..n][..n - 1];
        assert b[..n - 1] == b[..n][..n - 1];
      }
      NewestPrefix(a, b, id, n - 1);
      assert a[n - 1] == a[..n][n - 1] == b[..n][n - 1] == b[n - 1];
    }
  }

  // ---------------------------------------------------------------- listing

  /** With no filter every payment is listed, in store order. */
  lemma {:induction false} SelectionAll(t: Tables, n: nat)
    requires n <= |t.payments|
    ensures Selection(t, Filters(None, None, None), n) == seq(n, k => k)
  {
    if n > 0 {
      var f := Filters(None, None, None);
      SelectionAll(t, n - 1);
      assert Selected(t, f, n - 1);
      SelectionSnoc(t, f, n);
      CountingSnoc(n);
    }
  }

  /** One more selected payment is appended to the selection. */
  lemma SelectionSnoc(t: Tables, f: Filters, n: nat)
    requires 0 < n <= |t.payments| && Selected(t, f, n - 1)
    ensures Selection(t, f, n) == Selection(t, f, n - 1) + [n - 1]
  {
  }

  /** The indices below `n` are those below `n - 1` followed by `n - 1`. */
  lemma CountingSnoc(n: nat)
    requires n > 0
    ensures seq(n - 1, k => k) + [n - 1] == seq(n, k => k)
  {
    var whole := seq(n - 1, k => k) + [n - 1];
    assert forall k :: 0 <= k < n ==> whole[k] == k;
  }

  /** `listPayments` with no filter lists every payment, in store order. */
  lemma UnfilteredListsAll(t: Tables)
    ensures var r := ListPayments(t, Filters(None, None, None));
            |r| == |t.payments| && forall k :: 0 <= k < |r| ==> r[k].id == k
  {
    SelectionAll(t, |t.payments|);
  }

  /** Every listed payment satisfies each filter that was given. */
  lemma ListedMatchFilters(t: Tables, f: Filters, j: nat)
    requires j < |ListPayments(t, f)|
    ensures var d := ListPayments(t, f)[j];
            && (f.status.Some? && !IsBlank(f.status.value) ==> EqualsIgnoreCase(d.status.value, f.status.value))
            && (f.bookingId.Some? ==> d.bookingId == f.bookingId)
            && (f.renterEmail.Some? && !IsBlank(f.renterEmail.value) ==>
                  d.renterEmail.Some? && Contains(Lower(d.renterEmail.value), Lower(f.renterEmail.value)))
  {
    var idx := Selection(t, f, |t.payments|);
    var k := idx[j];
    assert Selected(t, f, k);
  }

  /** A listed payment with a booking carries the status of that booking's newest payout. */
  lemma ListedPayoutStatus(t: Tables, f: Filters, j: nat)
    requires j < |ListPayments(t, f)|
    ensures var d := ListPayments(t, f)[j];
            && (d.bookingId.None? ==> d.providerPayoutStatus.None?)
            && (d.bookingId.Some? ==>
                  var newest := NewestPayout(t.payouts, d.bookingId.value, |t.payouts|);
                  d.providerPayoutStatus == if newest.Some? then Some(PayoutStatusName(t.payouts[newest.value].status)) else None)
  {
  }
}
