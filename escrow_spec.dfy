/** Specification functions over the escrow tables: the repository queries the
    services run (deadline sweeps, blocking payments, newest payout), the bulk
    updates the sweeps perform, and the filtered payment listing for the admin UI. */
module EscrowSpec {
  import opened Text
  import opened Domain
  import opened PaymentDtos

  // ---------------------------------------------------------------- invariants

  /** Deadlines are always three days after the stamp that opened the window:
      approval for the deposit window, confirmation for the visit window. */
  predicate WellFormed(b: Booking)
  {
    && (b.status == AwaitingPayment ==>
          b.approvedAt.Some? && b.paymentDeadline == Some(b.approvedAt.value + ThreeDaysMs))
    && (b.status == PaidConfirmed ==>
          b.paymentConfirmedAt.Some? && b.viewingDeadline == Some(b.paymentConfirmedAt.value + ThreeDaysMs))
  }

  predicate AllWellFormed(bookings: map<nat, Booking>)
  {
    forall id :: id in bookings ==> WellFormed(bookings[id])
  }

  /** `createdAt` is not updatable: every booking that survives keeps its creation stamp. */
  predicate BookingStampsKept(before: map<nat, Booking>, after: map<nat, Booking>)
  {
    forall id :: id in before && id in after ==> after[id].createdAt == before[id].createdAt
  }

  /** The same for payments, which are never deleted. */
  predicate PaymentStampsKept(before: seq<Payment>, after: seq<Payment>)
  {
    |before| <= |after| && forall k :: 0 <= k < |before| ==> after[k].createdAt == before[k].createdAt
  }

  // ---------------------------------------------------------------- queries

  /** The SQL comparison `deadline < now`; a null deadline never matches. */
  predicate Before(deadline: Option<int>, now: int)
  {
    deadline.Some? && deadline.value < now
  }

  /** `existsByBookingIdAndStatusIn(id, [PENDING, CONFIRMED])`, scanning the table from its end. */
  predicate HasActivePayment(payments: seq<Payment>, id: nat)
    decreases |payments|
  {
    |payments| > 0 && (Blocks(payments[|payments| - 1], id) || HasActivePayment(payments[..|payments| - 1], id))
  }

  /** The scan finds a blocking payment exactly when one exists. */
  lemma {:induction false} HasActivePaymentExists(payments: seq<Payment>, id: nat)
    ensures HasActivePayment(payments, id) <==> exists k :: 0 <= k < |payments| && Blocks(payments[k], id)
    decreases |payments|
  {
    if |payments| > 0 {
      var init := payments[..|payments| - 1];
      HasActivePaymentExists(init, id);
      assert forall k :: 0 <= k < |init| ==> init[k] == payments[k];
    }
  }

  /** A payment of booking `id` that keeps the booking from expiring unpaid. */
  predicate Blocks(p: Payment, id: nat)
  {
    p.booking == Some(id) && (p.status == Pending || p.status == PaymentStatus.Confirmed)
  }

  /** `findByStatusAndPaymentDeadlineBefore(AWAITING_PAYMENT, now)`. */
  function UnpaidDue(bookings: map<nat, Booking>, now: int): set<nat>
  {
    set id | id in bookings && bookings[id].status == AwaitingPayment && Before(bookings[id].paymentDeadline, now)
  }

  /** The bookings the unpaid sweep expires: due, and without a blocking payment. */
  function UnpaidExpired(bookings: map<nat, Booking>, payments: seq<Payment>, now: int): set<nat>
  {
    set id | id in bookings && bookings[id].status == AwaitingPayment && Before(bookings[id].paymentDeadline, now)
             && !HasActivePayment(payments, id)
  }

  /** `findByStatusAndViewingDeadlineBefore(PAID_CONFIRMED, now)`: all of them expire. */
  function NoVisitDue(bookings: map<nat, Booking>, now: int): set<nat>
  {
    set id | id in bookings && bookings[id].status == PaidConfirmed && Before(bookings[id].viewingDeadline, now)
  }

  // ---------------------------------------------------------------- bulk updates

  /** Every booking in `ids` moved to `st`, the others untouched. */
  function WithStatus(bookings: map<nat, Booking>, ids: set<nat>, st: Status): map<nat, Booking>
  {
    map id | id in bookings :: if id in ids then bookings[id].(status := st) else bookings[id]
  }

  /** The rooms of the bookings in `ids`. */
  function RoomsOf(bookings: map<nat, Booking>, ids: set<nat>): set<nat>
  {
    set id | id in ids && id in bookings :: bookings[id].room
  }

  /** Every known room in `rs` listed (`v`) or hidden (not `v`). */
  function WithAvailability(rooms: map<nat, Room>, rs: set<nat>, v: bool): map<nat, Room>
  {
    map r | r in rooms :: if r in rs then rooms[r].(available := v) else rooms[r]
  }

  /** `room.setAvailable(v)` when the room exists (Java's `if (room != null)`). */
  function SetAvailable(rooms: map<nat, Room>, r: nat, v: bool): map<nat, Room>
  {
    if r in rooms then rooms[r := rooms[r].(available := v)] else rooms
  }

  lemma WithStatusStep(bookings: map<nat, Booking>, ids: set<nat>, st: Status, id: nat)
    requires id in bookings && id !in ids
    ensures WithStatus(bookings, ids, st)[id] == bookings[id]
    ensures WithStatus(bookings, ids, st)[id := bookings[id].(status := st)] == WithStatus(bookings, ids + {id}, st)
  {
  }

  lemma WithAvailabilityStep(rooms: map<nat, Room>, rs: set<nat>, v: bool, r: nat)
    ensures SetAvailable(WithAvailability(rooms, rs, v), r, v) == WithAvailability(rooms, rs + {r}, v)
  {
  }

  lemma RoomsOfStep(bookings: map<nat, Booking>, ids: set<nat>, id: nat)
    requires id in bookings
    ensures RoomsOf(bookings, ids + {id}) == RoomsOf(bookings, ids) + {bookings[id].room}
  {
  }

  /** One step of a sweep: expiring one more booking `id` of the original table and
      listing its room extends both bulk updates by that booking. */
  lemma SweepStep(b0: map<nat, Booking>, r0: map<nat, Room>, done: set<nat>, id: nat, st: Status)
    requires id in b0 && id !in done
    ensures WithStatus(b0, done, st)[id] == b0[id]
    ensures WithStatus(b0, done, st)[id := b0[id].(status := st)] == WithStatus(b0, done + {id}, st)
    ensures SetAvailable(WithAvailability(r0, RoomsOf(b0, done), true), b0[id].room, true)
            == WithAvailability(r0, RoomsOf(b0, done + {id}), true)
  {
    WithStatusStep(b0, done, st, id);
    RoomsOfStep(b0, done, id);
    WithAvailabilityStep(r0, RoomsOf(b0, done), true, b0[id].room);
  }

  /** The members of `due` that no payment blocks. */
  function Unblocked(due: set<nat>, payments: seq<Payment>): set<nat>
  {
    set id | id in due && !HasActivePayment(payments, id)
  }

  /** The unpaid sweep expires exactly the due bookings that no payment blocks. */
  lemma UnpaidExpiredUnblocked(bookings: map<nat, Booking>, payments: seq<Payment>, now: int)
    ensures UnpaidExpired(bookings, payments, now) == Unblocked(UnpaidDue(bookings, now), payments)
    ensures UnpaidDue(bookings, now) <= bookings.Keys
  {
  }

  /** Visiting one more booking adds it to the unblocked ones exactly when nothing blocks it. */
  lemma UnblockedStep(done: set<nat>, payments: seq<Payment>, id: nat)
    requires id !in done
    ensures id !in Unblocked(done, payments)
    ensures !HasActivePayment(payments, id) ==> Unblocked(done + {id}, payments) == Unblocked(done, payments) + {id}
    ensures HasActivePayment(payments, id) ==> Unblocked(done + {id}, payments) == Unblocked(done, payments)
  {
  }

  /** Moving bookings to a status that opens no window keeps every deadline invariant. */
  lemma WithStatusWellFormed(bookings: map<nat, Booking>, ids: set<nat>, st: Status)
    requires AllWellFormed(bookings) && st != AwaitingPayment && st != PaidConfirmed
    ensures AllWellFormed(WithStatus(bookings, ids, st))
    ensures WithStatus(bookings, ids, st).Keys == bookings.Keys
    ensures BookingStampsKept(bookings, WithStatus(bookings, ids, st))
  {
  }

  // ---------------------------------------------------------------- payouts

  /** `findTopByBookingIdOrderByCreatedAtDesc` over the first `n` payouts: the index of a
      payout of booking `id` with the latest createdAt (the later index on a tie). */
  function NewestPayout(payouts: seq<ProviderPayout>, id: nat, n: nat): (r: Option<nat>)
    requires n <= |payouts|
    ensures r.None? <==> forall j :: 0 <= j < n ==> payouts[j].booking != id
    ensures r.Some? ==> r.value < n && payouts[r.value].booking == id
    ensures r.Some? ==> forall j :: 0 <= j < n && payouts[j].booking == id ==>
              payouts[j].createdAt <= payouts[r.value].createdAt
  {
    if n == 0 then None
    else
      var prev := NewestPayout(payouts, id, n - 1);
      if payouts[n - 1].booking == id && (prev.None? || payouts[prev.value].createdAt <= payouts[n - 1].createdAt)
      then Some(n - 1)
      else prev
  }

  // ---------------------------------------------------------------- listing

  /** The tables `listPayments` reads: user emails, bookings, payments (id = index) and payouts. */
  datatype Tables = Tables(
    users: map<nat, Option<string>>,
    bookings: map<nat, Booking>,
    payments: seq<Payment>,
    payouts: seq<ProviderPayout>)

  /** The three optional request parameters of `listPayments`. */
  datatype Filters = Filters(status: Option<string>, bookingId: Option<nat>, renterEmail: Option<string>)

  /** The booking of payment `p` as `PaymentDto.from` sees it (absent for Java's null booking). */
  function ViewOf(users: map<nat, Option<string>>, bookings: map<nat, Booking>, p: Payment): Option<BookingView>
  {
    if p.booking.Some? && p.booking.value in bookings then
      var b := bookings[p.booking.value];
      Some(BookingView(p.booking.value, b, if b.renter in users then Some(Renter(users[b.renter])) else None))
    else None
  }

  /** Status filter: null or blank matches everything, otherwise the enum name ignoring case. */
  predicate StatusMatches(f: Option<string>, p: Payment)
  {
    f.None? || IsBlank(f.value) || EqualsIgnoreCase(PaymentStatusName(p.status), f.value)
  }

  /** Booking filter: null matches everything, otherwise the payment's booking id. */
  predicate BookingMatches(f: Option<nat>, view: Option<BookingView>)
  {
    f.None? || (view.Some? && view.value.id == f.value)
  }

  /** Renter filter: null or blank matches everything; otherwise a booking, a renter and an
      email are needed, and the lower-cased email must contain the lower-cased filter. */
  predicate EmailMatches(f: Option<string>, view: Option<BookingView>)
  {
    f.None? || IsBlank(f.value)
    || (view.Some? && view.value.renter.Some? && view.value.renter.value.email.Some?
        && Contains(Lower(view.value.renter.value.email.value), Lower(f.value)))
  }

  predicate Selected(t: Tables, f: Filters, k: nat)
    requires k < |t.payments|
  {
    var view := ViewOf(t.users, t.bookings, t.payments[k]);
    StatusMatches(f.status, t.payments[k]) && BookingMatches(f.bookingId, view) && EmailMatches(f.renterEmail, view)
  }

  /** The DTO listed for payment `k`: `from`, plus the newest payout's status when it has a booking. */
  function Listed(t: Tables, k: nat): (d: PaymentDto)
    requires k < |t.payments|
  {
    var p := t.payments[k];
    var view := ViewOf(t.users, t.bookings, p);
    var newest := if view.Some? then NewestPayout(t.payouts, view.value.id, |t.payouts|) else None;
    From(k, p, view).(providerPayoutStatus :=
      if newest.Some? then Some(PayoutStatusName(t.payouts[newest.value].status)) else None)
  }

  /** Indices of the selected payments among the first `n`, in store order. */
  function Selection(t: Tables, f: Filters, n: nat): (idx: seq<nat>)
    requires n <= |t.payments|
    ensures forall j :: 0 <= j < |idx| ==> idx[j] < n && Selected(t, f, idx[j])
    ensures forall k :: 0 <= k < n && Selected(t, f, k) ==> k in idx
    ensures forall i, j :: 0 <= i < j < |idx| ==> idx[i] < idx[j]
  {
    if n == 0 then []
    else Selection(t, f, n - 1) + (if Selected(t, f, n - 1) then [n - 1] else [])
  }

  /** `listPayments(status, bookingId, renterEmail)`: the selected payments' DTOs in store order. */
  function ListPayments(t: Tables, f: Filters): (r: seq<PaymentDto>)
    // every listed DTO is the listing of a payment that meets the filters
    ensures forall j :: 0 <= j < |r| ==>
              r[j].id < |t.payments| && Selected(t, f, r[j].id) && r[j] == Listed(t, r[j].id)
    // every payment that meets the filters is listed
    ensures forall k :: 0 <= k < |t.payments| && Selected(t, f, k) ==> exists j :: 0 <= j < |r| && r[j].id == k
    // in store order, each payment at most once
    ensures forall i, j :: 0 <= i < j < |r| ==> r[i].id < r[j].id
  {
    var idx := Selection(t, f, |t.payments|);
    var r := seq(|idx|, j requires 0 <= j < |idx| => Listed(t, idx[j]));
    ListingCovers(t, f, idx, r);
    r
  }

  /** A selected index appears in the selection, so its DTO appears in the listing. */
  lemma ListingCovers(t: Tables, f: Filters, idx: seq<nat>, r: seq<PaymentDto>)
    requires idx == Selection(t, f, |t.payments|)
    requires |r| == |idx| && forall j :: 0 <= j < |r| ==> r[j] == Listed(t, idx[j])
    ensures forall k :: 0 <= k < |t.payments| && Selected(t, f, k) ==> exists j :: 0 <= j < |r| && r[j].id == k
  {
    forall k | 0 <= k < |t.payments| && Selected(t, f, k)
      ensures exists j :: 0 <= j < |r| && r[j].id == k
    {
      var j :| 0 <= j < |idx| && idx[j] == k;
      assert r[j].id == k;
    }
  }
}
