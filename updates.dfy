/** `UpdatesController.renterUpdates`: the renter's "Recent Updates", derived from the
    current bookings and payments. Per booking it picks the newest CONFIRMED and the newest
    REFUNDED payment, emits at most two items depending on the booking's status, and sorts
    all items newest first. Timestamps are epoch milliseconds, as `ts` produces them. */
module Updates {
  import opened Text
  import opened Domain
  import opened Sorting

  /** The item type, sent as its name. */
  datatype ItemKind = Success | Refund | PendingItem

  function KindName(k: ItemKind): string
  {
    match k
    case Success => "SUCCESS"
    case Refund => "REFUND"
    case PendingItem => "PENDING"
  }

  datatype UpdateItem = UpdateItem(kind: ItemKind, message: Message, createdAt: Option<int>)

  // ---------------------------------------------------------------- room code

  /** The label of a present room: the public code `pc` unless it is blank, then the
      title unless it is blank, then "ROOM#id". Whatever `pc` is, the label is not blank. */
  function RoomLabel(pc: string, title: string, id: nat): (r: string)
    ensures !IsBlank(r)
    ensures !IsBlank(pc) ==> r == pc
    ensures IsBlank(pc) && !IsBlank(title) ==> r == title
  {
    if !IsBlank(pc) then pc
    else if !IsBlank(title) then title
    else
      assert !IsJavaWhitespace(("ROOM#" + NatToString(id))[0]);
      "ROOM#" + NatToString(id)
  }

  /** `safeRoomCode`: "your room" without a room, else the public code, with the title and
      "ROOM#id" as fallbacks for a blank code. */
  function SafeRoomCode(id: nat, room: Option<Room>): (r: string)
    ensures room.None? ==> r == "your room"
    ensures room.Some? ==> !IsBlank(r)
    ensures room.Some? && !IsBlank(PublicCode(Some(id))) ==> r == PublicCode(Some(id))
  {
    if room.None? then "your room"
    else RoomLabel(PublicCode(Some(id)), room.value.title, id)
  }

  /** The public code is never blank, so a present room always shows its public code. */
  lemma SafeRoomCodeIsPublic(id: nat, room: Option<Room>)
    ensures room.Some? ==> SafeRoomCode(id, room) == PublicCode(Some(id))
    ensures room.None? ==> SafeRoomCode(id, room) == "your room"
  {
  }

  // ---------------------------------------------------------------- choosing a payment

  /** Java's `nullsLast(naturalOrder())` on optional timestamps: a null is the greatest. */
  predicate StampLe(a: Option<int>, b: Option<int>)
  {
    b.None? || (a.Some? && a.value <= b.value)
  }

  /** Which timestamp of a payment the comparator reads. */
  datatype StampField = ConfirmedAt | RefundedAt

  function StampOf(p: Payment, f: StampField): Option<int>
  {
    match f
    case ConfirmedAt => p.confirmedAt
    case RefundedAt => p.refundedAt
  }

  /** `stream().filter(status == st).max(comparing(stamp, nullsLast(naturalOrder())))` over the
      first `n` payments, as an index. `max` keeps the earlier element on a tie, so a later one
      wins only when it is strictly greater. */
  function Newest(ps: seq<Payment>, st: PaymentStatus, f: StampField, n: nat): (r: Option<nat>)
    requires n <= |ps|
    ensures r.None? <==> forall j :: 0 <= j < n ==> ps[j].status != st
    ensures r.Some? ==> r.value < n && ps[r.value].status == st
    ensures r.Some? ==> forall j :: 0 <= j < n && ps[j].status == st ==> StampLe(StampOf(ps[j], f), StampOf(ps[r.value], f))
    ensures r.Some? ==> forall j :: 0 <= j < r.value && ps[j].status == st ==> !StampLe(StampOf(ps[r.value], f), StampOf(ps[j], f))
  {
    if n == 0 then None
    else
      var prev := Newest(ps, st, f, n - 1);
      if ps[n - 1].status != st then prev
      else if prev.None? || !StampLe(StampOf(ps[n - 1], f), StampOf(ps[prev.value], f)) then Some(n - 1)
      else prev
  }

  /** A matching payment without a timestamp beats every dated one. */
  lemma NullStampWins(ps: seq<Payment>, st: PaymentStatus, f: StampField, k: nat)
    requires k < |ps| && ps[k].status == st && StampOf(ps[k], f).None?
    ensures Newest(ps, st, f, |ps|).Some?
    ensures StampOf(ps[Newest(ps, st, f, |ps|).value], f).None?
  {
  }

  /** The payments of booking `bid`, in the order the query returned them; payments without
      a booking belong to no group. */
  function PaymentsOf(payments: seq<Payment>, bid: nat): (g: seq<Payment>)
    ensures forall i :: 0 <= i < |g| ==> g[i].booking == Some(bid)
    ensures forall i :: 0 <= i < |payments| && payments[i].booking == Some(bid) ==> payments[i] in g
    ensures |g| <= |payments|
  {
    if payments == [] then []
    else (if payments[0].booking == Some(bid) then [payments[0]] else []) + PaymentsOf(payments[1..], bid)
  }

  /** The grouping distributes over concatenation: a booking's payments keep the query's
      order and repeats. */
  lemma {:induction false} PaymentsOfAppend(a: seq<Payment>, b: seq<Payment>, bid: nat)
    ensures PaymentsOf(a + b, bid) == PaymentsOf(a, bid) + PaymentsOf(b, bid)
    decreases |a|
  {
    if a == [] {
      assert a + b == b;
    } else {
      assert (a + b)[0] == a[0];
      assert (a + b)[1..] == a[1..] + b;
      PaymentsOfAppend(a[1..], b, bid);
    }
  }

  /** On one payment the grouping keeps it exactly when it belongs to the booking. */
  lemma PaymentsOfSingle(p: Payment, bid: nat)
    ensures PaymentsOf([p], bid) == if p.booking == Some(bid) then [p] else []
  {
  }

  // ---------------------------------------------------------------- items of one booking

  /** The message of an item, by template; `Text` renders it. */
  datatype Message =
    | CompletedFor(code: string)
    | RefundProcessedFor(code: string)
    | RefundPendingFor(code: string)
    | RefundRequestedFor(code: string)
    | CompletionRequestedFor(code: string)

  /** The human text of each template, with the room code filled in. */
  function MessageText(m: Message): string
  {
    match m
    case CompletedFor(code) => "✅ Thank you for choosing RentoVerse! Your booking is completed for " + code + "."
    case RefundProcessedFor(code) => "💸 Refund processed for " + code + ". You should receive it within 72 hours."
    case RefundPendingFor(code) =>
      "⌛ Refund requested for " + code + ". We’re processing it — you’ll receive it within 72 hours after approval."
    case RefundRequestedFor(code) => "↩ You requested a refund for " + code + ". Waiting for admin."
    case CompletionRequestedFor(code) => "✔ You requested completion for " + code + ". Waiting for admin."
  }

  /** The status banner of one booking (the `switch`). */
  function Banner(b: Booking, code: string, pmts: seq<Payment>, now: int): (r: seq<UpdateItem>)
    ensures |r| <= 1
    // a banner exactly for COMPLETED, CANCELLED_AFTER_VIEWING and a PAID_CONFIRMED
    // booking whose renter asked for a refund or for completion
    ensures r != [] <==>
              || b.status == Completed || b.status == CancelledAfterViewing
              || (b.status == PaidConfirmed && (b.decision == RefundRequested || b.decision == CompleteRequested))
    ensures b.status == Completed ==>
              r != [] && r[0].kind == Success && r[0].message == CompletedFor(code)
    // after viewing, REFUND once some payment is refunded, PENDING before
    ensures b.status == CancelledAfterViewing ==>
              r != [] &&
              (r[0].kind == Refund <==> exists j :: 0 <= j < |pmts| && pmts[j].status == Refunded)
    ensures forall i :: 0 <= i < |r| && r[i].kind == PendingItem ==> r[i].createdAt == Some(now)
  {
    var confirmed := Newest(pmts, PaymentStatus.Confirmed, ConfirmedAt, |pmts|);
    var refunded := Newest(pmts, Refunded, RefundedAt, |pmts|);
    match b.status
    case Completed =>
      [UpdateItem(Success, CompletedFor(code), if confirmed.Some? then pmts[confirmed.value].confirmedAt else None)]
    case CancelledAfterViewing =>
      if refunded.Some? then [UpdateItem(Refund, RefundProcessedFor(code), pmts[refunded.value].refundedAt)]
      else [UpdateItem(PendingItem, RefundPendingFor(code), Some(now))]
    case PaidConfirmed =>
      if b.decision == RefundRequested then [UpdateItem(PendingItem, RefundRequestedFor(code), Some(now))]
      else if b.decision == CompleteRequested then [UpdateItem(PendingItem, CompletionRequestedFor(code), Some(now))]
      else []
    case _ => []
  }

  /** The standalone refund item, for a refunded booking the banner did not already cover. */
  function Extra(b: Booking, code: string, pmts: seq<Payment>): (r: seq<UpdateItem>)
    ensures |r| <= 1
    ensures r != [] <==>
              b.status != CancelledAfterViewing && exists j :: 0 <= j < |pmts| && pmts[j].status == Refunded
    ensures r != [] ==> r[0].kind == Refund && r[0].message == RefundProcessedFor(code)
  {
    var refunded := Newest(pmts, Refunded, RefundedAt, |pmts|);
    if refunded.Some? && b.status != CancelledAfterViewing
    then [UpdateItem(Refund, RefundProcessedFor(code), pmts[refunded.value].refundedAt)]
    else []
  }

  /** The items of one booking: the status banner, then the standalone refund item. */
  function ItemsFor(b: Booking, code: string, pmts: seq<Payment>, now: int): seq<UpdateItem>
  {
    Banner(b, code, pmts, now) + Extra(b, code, pmts)
  }

  /** Which kinds of item a booking yields, by status, decision and whether it has a refund. */
  function KindsFor(status: Status, decision: VisitDecision, hasRefund: bool): seq<ItemKind>
  {
    var banner :=
      match status
      case Completed => [Success]
      case CancelledAfterViewing => if hasRefund then [Refund] else [PendingItem]
      case PaidConfirmed => if decision == NoDecision then [] else [PendingItem]
      case _ => [];
    banner + (if hasRefund && status != CancelledAfterViewing then [Refund] else [])
  }

  /** Each booking contributes the kinds of `KindsFor`, so at most two items, exactly one
      SUCCESS when COMPLETED, and one REFUND or PENDING item when CANCELLED_AFTER_VIEWING. */
  lemma ItemsForKinds(b: Booking, code: string, pmts: seq<Payment>, now: int)
    ensures var items := ItemsFor(b, code, pmts, now);
            var hasRefund := exists j :: 0 <= j < |pmts| && pmts[j].status == Refunded;
            && |items| == |KindsFor(b.status, b.decision, hasRefund)| <= 2
            && forall i :: 0 <= i < |items| ==> items[i].kind == KindsFor(b.status, b.decision, hasRefund)[i]
  {
    var refunded := Newest(pmts, Refunded, RefundedAt, |pmts|);
    assert refunded.Some? <==> exists j :: 0 <= j < |pmts| && pmts[j].status == Refunded;
  }

  /** The stamps: SUCCESS carries the chosen confirmation, REFUND the chosen refund, and
      PENDING the moment of the request. */
  lemma ItemsForStamps(b: Booking, code: string, pmts: seq<Payment>, now: int, i: nat)
    requires i < |ItemsFor(b, code, pmts, now)|
    ensures var it := ItemsFor(b, code, pmts, now)[i];
            var confirmed := Newest(pmts, PaymentStatus.Confirmed, ConfirmedAt, |pmts|);
            var refunded := Newest(pmts, Refunded, RefundedAt, |pmts|);
            && (it.kind == Success ==>
                  it.createdAt == if confirmed.Some? then pmts[confirmed.value].confirmedAt else None)
            && (it.kind == Refund ==> refunded.Some? && it.createdAt == pmts[refunded.value].refundedAt)
            && (it.kind == PendingItem ==> it.createdAt == Some(now))
  {
  }

  // ---------------------------------------------------------------- all items, sorted

  /** The room code shown for a booking. */
  function CodeOf(b: Booking, rooms: map<nat, Room>): string
  {
    SafeRoomCode(b.room, if b.room in rooms then Some(rooms[b.room]) else None)
  }

  /** The items of the bookings in order, before sorting. */
  function AllItems(bookings: seq<(nat, Booking)>, rooms: map<nat, Room>, payments: seq<Payment>, now: int): seq<UpdateItem>
  {
    if bookings == [] then []
    else
      var last := bookings[|bookings| - 1];
      AllItems(bookings[..|bookings| - 1], rooms, payments, now)
        + ItemsFor(last.1, CodeOf(last.1, rooms), PaymentsOf(payments, last.0), now)
  }

  /** One more booking appends its own items. */
  lemma AllItemsSnoc(bookings: seq<(nat, Booking)>, rooms: map<nat, Room>, payments: seq<Payment>, now: int, i: nat)
    requires i < |bookings|
    ensures AllItems(bookings[..i + 1], rooms, payments, now)
            == AllItems(bookings[..i], rooms, payments, now)
               + ItemsFor(bookings[i].1, CodeOf(bookings[i].1, rooms), PaymentsOf(payments, bookings[i].0), now)
  {
    assert bookings[..i + 1][..i] == bookings[..i];
  }

  /** Each booking contributes at most two items. */
  lemma {:induction false} AllItemsAtMostTwoEach(bookings: seq<(nat, Booking)>, rooms: map<nat, Room>, payments: seq<Payment>, now: int)
    ensures |AllItems(bookings, rooms, payments, now)| <= 2 * |bookings|
  {
    if bookings != [] {
      var last := bookings[|bookings| - 1];
      AllItemsAtMostTwoEach(bookings[..|bookings| - 1], rooms, payments, now);
      ItemsForKinds(last.1, CodeOf(last.1, rooms), PaymentsOf(payments, last.0), now);
    }
  }

  /** The key of the reversed `nullsLast` comparator: undated items first, then newest first. */
  function NewestFirst(it: UpdateItem): Key
  {
    if it.createdAt.None? then Key(0, 0) else Key(1, -it.createdAt.value)
  }

  /** Sorted by `NewestFirst` means: undated items lead, dated ones are in descending order. */
  lemma NewestFirstOrder(items: seq<UpdateItem>, i: nat, j: nat)
    requires SortedBy(items, NewestFirst) && i < j < |items|
    ensures items[j].createdAt.None? ==> items[i].createdAt.None?
    ensures items[i].createdAt.Some? && items[j].createdAt.Some? ==> items[i].createdAt.value >= items[j].createdAt.value
  {
    assert KeyLe(NewestFirst(items[i]), NewestFirst(items[j]));
  }

  /** `renterUpdates(email)`: `bookings` and `payments` are the two repository queries for
      the renter (bookings with their ids), `rooms` the room table, `now` the clock. */
  method RenterUpdates(bookings: seq<(nat, Booking)>, rooms: map<nat, Room>, payments: seq<Payment>, now: int)
    returns (out: seq<UpdateItem>)
    ensures out == SortBy(AllItems(bookings, rooms, payments, now), NewestFirst)
    ensures SortedBy(out, NewestFirst)
    ensures multiset(out) == multiset(AllItems(bookings, rooms, payments, now))
  {
    out := [];
    for i := 0 to |bookings|
      invariant out == AllItems(bookings[..i], rooms, payments, now)
    {
      var (bid, b) := bookings[i];
      var pmts := PaymentsOf(payments, bid);
      var confirmed := Newest(pmts, PaymentStatus.Confirmed, ConfirmedAt, |pmts|);
      var refunded := Newest(pmts, Refunded, RefundedAt, |pmts|);
      var code := CodeOf(b, rooms);
      var banner: seq<UpdateItem> := [];
      match b.status {
        case Completed =>
          banner := [UpdateItem(Success, CompletedFor(code),
                                if confirmed.Some? then pmts[confirmed.value].confirmedAt else None)];
        case CancelledAfterViewing =>
          if refunded.Some? {
            banner := [UpdateItem(Refund, RefundProcessedFor(code), pmts[refunded.value].refundedAt)];
          } else {
            banner := [UpdateItem(PendingItem, RefundPendingFor(code), Some(now))];
          }
        case PaidConfirmed =>
          if b.decision == RefundRequested {
            banner := [UpdateItem(PendingItem, RefundRequestedFor(code), Some(now))];
          } else if b.decision == CompleteRequested {
            banner := [UpdateItem(PendingItem, CompletionRequestedFor(code), Some(now))];
          }
        case _ =>
      }
      assert banner == Banner(b, code, pmts, now);
      var extra: seq<UpdateItem> := [];
      if refunded.Some? && b.status != CancelledAfterViewing {
        extra := [UpdateItem(Refund, RefundProcessedFor(code), pmts[refunded.value].refundedAt)];
      }
      assert banner + extra == ItemsFor(b, code, pmts, now);
      out := out + (banner + extra);
      AllItemsSnoc(bookings, rooms, payments, now, i);
    }
    assert bookings[..|bookings|] == bookings;
    var unsorted := out;
    out := SortBy(unsorted, NewestFirst);
    SortBySorted(unsorted, NewestFirst);
    SortByPermutes(unsorted, NewestFirst);
  }
}
