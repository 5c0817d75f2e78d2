/** The persistent entities of the escrow core: booking, payment, provider payout
    and room, their status enums, the field defaults the JPA entities declare and
    the `onCreate` hooks that run before the first insert. Every timestamp is an
    integer number of milliseconds; `now` is always a parameter. */
module Domain {
  import opened Text

  datatype Option<T> = None | Some(value: T)

  /** Outcome of a service call: a value, or the exception the Java code throws. */
  datatype Failure =
    | NoSuchElement                  // `Optional.orElseThrow()` without a supplier
    | IllegalArgument(msg: string)
    | IllegalState(msg: string)

  datatype Result<T> = Ok(value: T) | Err(failure: Failure)

  /** Three days in milliseconds: the payment window and the visit window. */
  const ThreeDaysMs: int := 3 * 24 * 60 * 60 * 1000

  // ---------------------------------------------------------------- enums

  /** Booking lifecycle (`Status`); `Confirmed` is the legacy value nothing sets any more. */
  datatype Status =
    | PendingRequest | Declined | AwaitingPayment | Confirmed | PaidConfirmed
    | Completed | CancelledAfterViewing | ExpiredUnpaid | ExpiredNoVisit

  /** `Status.name()`. */
  function StatusName(s: Status): string
  {
    match s
    case PendingRequest => "PENDING_REQUEST"
    case Declined => "DECLINED"
    case AwaitingPayment => "AWAITING_PAYMENT"
    case Confirmed => "CONFIRMED"
    case PaidConfirmed => "PAID_CONFIRMED"
    case Completed => "COMPLETED"
    case CancelledAfterViewing => "CANCELLED_AFTER_VIEWING"
    case ExpiredUnpaid => "EXPIRED_UNPAID"
    case ExpiredNoVisit => "EXPIRED_NO_VISIT"
  }

  datatype PaymentStatus = Pending | Confirmed | Refunded | Failed

  /** `PaymentStatus.name()`. */
  function PaymentStatusName(s: PaymentStatus): string
  {
    match s
    case Pending => "PENDING"
    case Confirmed => "CONFIRMED"
    case Refunded => "REFUNDED"
    case Failed => "FAILED"
  }

  /** The renter's post-visit request (`VisitDecision`); `NoDecision` is NONE. */
  datatype VisitDecision = NoDecision | RefundRequested | CompleteRequested

  function VisitDecisionName(d: VisitDecision): string
  {
    match d
    case NoDecision => "NONE"
    case RefundRequested => "REFUND_REQUESTED"
    case CompleteRequested => "COMPLETE_REQUESTED"
  }

  datatype PayoutStatus = Requested | Paid

  function PayoutStatusName(s: PayoutStatus): string
  {
    match s
    case Requested => "REQUESTED"
    case Paid => "PAID"
  }

  /** Enum names are distinct, so `name()` identifies the constant. */
  lemma PaymentStatusNameInjective(a: PaymentStatus, b: PaymentStatus)
    ensures PaymentStatusName(a) == PaymentStatusName(b) <==> a == b
  {
  }

  // ---------------------------------------------------------------- stored rows

  /** A stored booking. `renter` and `room` are mandatory references (user and room ids). */
  datatype Booking = Booking(
    renter: nat,
    room: nat,
    status: Status,
    createdAt: int,
    approvedAt: Option<int>,
    paymentDeadline: Option<int>,
    paymentConfirmedAt: Option<int>,
    viewingDeadline: Option<int>,
    decision: VisitDecision,
    decisionNote: Option<string>)

  /** A stored payment; `booking` is the id of the booking it belongs to. */
  datatype Payment = Payment(
    booking: Option<nat>,
    roomCode: Option<string>,
    amount: real,
    payMethod: Option<string>,
    reference: Option<string>,
    payerName: Option<string>,
    payerPhone: Option<string>,
    txnId: Option<string>,
    note: Option<string>,
    status: PaymentStatus,
    createdAt: int,
    confirmedAt: Option<int>,
    refundedAt: Option<int>)

  datatype ProviderPayout = ProviderPayout(
    booking: nat,
    providerEmail: Option<string>,
    roomCode: Option<string>,
    payMethod: Option<string>,
    account: Option<string>,
    status: PayoutStatus,
    createdAt: int,
    paidAt: Option<int>)

  /** The part of a room the core reads and writes: its title, its provider (a user id)
      and whether it is publicly listed. */
  datatype Room = Room(title: string, provider: nat, available: bool)

  /** A room as first saved: `available` starts true. */
  function NewRoom(title: string, provider: nat): (r: Room)
    ensures r.available && r.title == title && r.provider == provider
  {
    Room(title, provider, true)
  }

  /** `Room.getPublicCode`: "RENTO:" and the decimal form of 100 + id, an absent id counting as 0. */
  function PublicCode(id: Option<int>): (r: string)
    ensures StartsWith(r, "RENTO:") && !IsBlank(r)
    ensures id.None? ==> r == "RENTO:100"
    // for a stored (non-negative) id the digits after the prefix read back as 100 + id
    ensures id.Some? && id.value >= 0 ==> DigitsAt(r, 6, |r|, 100 + id.value)
  {
    var n := 100 + (if id.Some? then id.value else 0);
    var digits := IntToString(n);
    var r := "RENTO:" + digits;
    assert r[0] == 'R';
    assert r[..6] == "RENTO:";
    assert r[6..|r|] == digits;
    if id.None? then
      assert NatToString(10) == "10";
      r
    else if n >= 0 then
      NatToStringValue(n);
      r
    else r
  }

  /** The public code is never blank and, for non-negative ids, never collides. */
  lemma PublicCodeShape(id: Option<int>)
    requires id.Some? ==> id.value >= 0
    ensures StartsWith(PublicCode(id), "RENTO:") && !IsBlank(PublicCode(id))
    ensures PublicCode(id) == "RENTO:" + NatToString(100 + (if id.Some? then id.value else 0))
  {
    assert !IsJavaWhitespace(PublicCode(id)[0]);
  }

  lemma PublicCodeInjective(a: nat, b: nat)
    requires PublicCode(Some(a)) == PublicCode(Some(b))
    ensures a == b
  {
    PublicCodeDigits(a);
    PublicCodeDigits(b);
    PrefixCancel("RENTO:", NatToString(100 + a), NatToString(100 + b));
    NatToStringInjective(100 + a, 100 + b);
  }

  /** The public code of a stored room: "RENTO:" and the digits of 100 + id. */
  lemma PublicCodeDigits(id: nat)
    ensures PublicCode(Some(id)) == "RENTO:" + NatToString(100 + id)
  {
  }

  // ---------------------------------------------------------------- entities before insert

  /** A `Booking` entity before it is persisted: every column may still be null. */
  class BookingEntity {
    var renter: nat
    var room: nat
    var status: Option<Status>
    var createdAt: Option<int>
    var approvedAt: Option<int>
    var paymentDeadline: Option<int>
    var paymentConfirmedAt: Option<int>
    var viewingDeadline: Option<int>
    var decision: Option<VisitDecision>
    var decisionNote: Option<string>

    /** `new Booking()` followed by the mandatory renter and room: the field
        initialisers give PENDING_REQUEST and NONE, everything else is null. */
    constructor (renter: nat, room: nat)
      ensures this.renter == renter && this.room == room
      ensures status == Some(PendingRequest) && decision == Some(NoDecision)
      ensures createdAt == None && approvedAt == None && paymentDeadline == None
      ensures paymentConfirmedAt == None && viewingDeadline == None && decisionNote == None
    {
      this.renter := renter;
      this.room := room;
      status := Some(PendingRequest);
      createdAt := None;
      approvedAt := None;
      paymentDeadline := None;
      paymentConfirmedAt := None;
      viewingDeadline := None;
      decision := Some(NoDecision);
      decisionNote := None;
    }

    /** `@PrePersist onCreate`: fills createdAt, status and decision only where they are null. */
    method OnCreate(now: int)
      modifies this
      ensures createdAt == (if old(createdAt).Some? then old(createdAt) else Some(now))
      ensures status == (if old(status).Some? then old(status) else Some(PendingRequest))
      ensures decision == (if old(decision).Some? then old(decision) else Some(NoDecision))
      ensures renter == old(renter) && room == old(room)
      ensures approvedAt == old(approvedAt) && paymentDeadline == old(paymentDeadline)
      ensures paymentConfirmedAt == old(paymentConfirmedAt) && viewingDeadline == old(viewingDeadline)
      ensures decisionNote == old(decisionNote)
    {
      if createdAt == None {
        createdAt := Some(now);
      }
      if status == None {
        status := Some(PendingRequest);
      }
      if decision == None {
        decision := Some(NoDecision);
      }
    }

    /** True once the not-null columns hold values, as after `OnCreate`. */
    predicate Insertable()
      reads this
    {
      status.Some? && createdAt.Some? && decision.Some?
    }

    /** The row that is inserted. */
    function Row(): (b: Booking)
      reads this
      requires Insertable()
      ensures b.renter == renter && b.room == room && b.status == status.value
      ensures b.createdAt == createdAt.value && b.decision == decision.value
    {
      Booking(renter, room, status.value, createdAt.value, approvedAt, paymentDeadline,
              paymentConfirmedAt, viewingDeadline, decision.value, decisionNote)
    }
  }

  /** A `Payment` entity built with `Payment.builder()` before it is persisted. */
  class PaymentEntity {
    var booking: Option<nat>
    var roomCode: Option<string>
    var amount: real
    var payMethod: Option<string>
    var reference: Option<string>
    var payerName: Option<string>
    var payerPhone: Option<string>
    var txnId: Option<string>
    var note: Option<string>
    var status: Option<PaymentStatus>
    var createdAt: Option<int>
    var confirmedAt: Option<int>
    var refundedAt: Option<int>

    /** The builder: every field set from its argument; the mandatory booking and amount are
        always given, a field the builder was not given is null. */
    constructor (booking: nat, amount: real, payMethod: Option<string>, reference: Option<string>,
                 payerName: Option<string>, payerPhone: Option<string>, txnId: Option<string>,
                 note: Option<string>, status: Option<PaymentStatus>, createdAt: Option<int>)
      ensures this.booking == Some(booking) && this.amount == amount && this.payMethod == payMethod
      ensures this.reference == reference && this.payerName == payerName
      ensures this.payerPhone == payerPhone && this.txnId == txnId && this.note == note
      ensures this.status == status && this.createdAt == createdAt
      ensures roomCode == None && confirmedAt == None && refundedAt == None
    {
      this.booking := Some(booking);
      this.roomCode := None;
      this.amount := amount;
      this.payMethod := payMethod;
      this.reference := reference;
      this.payerName := payerName;
      this.payerPhone := payerPhone;
      this.txnId := txnId;
      this.note := note;
      this.status := status;
      this.createdAt := createdAt;
      this.confirmedAt := None;
      this.refundedAt := None;
    }

    /** `@PrePersist onCreate`: fills createdAt and a null status (PENDING), keeping given values. */
    method OnCreate(now: int)
      modifies this
      ensures createdAt == (if old(createdAt).Some? then old(createdAt) else Some(now))
      ensures status == (if old(status).Some? then old(status) else Some(Pending))
      ensures booking == old(booking) && roomCode == old(roomCode) && amount == old(amount)
      ensures payMethod == old(payMethod) && reference == old(reference) && payerName == old(payerName)
      ensures payerPhone == old(payerPhone) && txnId == old(txnId) && note == old(note)
      ensures confirmedAt == old(confirmedAt) && refundedAt == old(refundedAt)
    {
      if createdAt == None {
        createdAt := Some(now);
      }
      if status == None {
        status := Some(Pending);
      }
    }

    predicate Insertable()
      reads this
    {
      status.Some? && createdAt.Some?
    }

    function Row(): (p: Payment)
      reads this
      requires Insertable()
      ensures p.booking == booking && p.status == status.value && p.createdAt == createdAt.value
      ensures p.amount == amount && p.reference == reference && p.txnId == txnId
    {
      Payment(booking, roomCode, amount, payMethod, reference, payerName, payerPhone, txnId, note,
              status.value, createdAt.value, confirmedAt, refundedAt)
    }
  }
}
