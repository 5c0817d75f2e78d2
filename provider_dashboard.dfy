/** The provider dashboard: room codes, status normalisation and badge colours, what each
    booking card shows under its details, the payout area of a completed booking, and the
    payout-request modal. Fetch results arrive as parameters. */
module ProviderDashboard {
  import opened Text
  import opened Domain
  import opened Client

  /** The fields of a room that the page reads. */
  datatype ProviderRoom = ProviderRoom(publicCode: JsVal, id: JsVal, rent: JsVal)

  /** A booking request as `GET /api/bookings/request_list` returns it. */
  datatype BookingRequest = BookingRequest(
    id: JsVal, status: JsVal, room: Option<ProviderRoom>,
    paymentDeadline: JsVal, viewingDeadline: JsVal,
    depositAmount: JsVal)

  /** `room.rent` where `room` is `req.room || {}`: undefined when there is no room. */
  function RoomRent(req: BookingRequest): JsVal
  {
    if req.room.Some? then req.room.value.rent else Undefined
  }

  // ---------------------------------------------------------------- codes and statuses

  /** `100 + (room?.id ?? 0)` in a template: a number is added, a string is appended to
      "100", and a missing id counts as 0. */
  function HundredPlus(id: JsVal): string
  {
    match id
    case JNum(n) => IntToString(100 + n)
    case JStr(s) => "100" + s
    case _ => "100"
  }

  lemma HundredDigits()
    ensures IntToString(100) == "100"
  {
    assert NatToString(1) == "1";
    assert NatToString(10) == "10";
  }

  /** `roomPublicCode`: the room's own `publicCode` when truthy, else "RENTO:" + (100 + id). */
  function RoomPublicCode(room: Option<ProviderRoom>): (r: string)
    ensures room.Some? && Truthy(room.value.publicCode) ==> r == JsString(room.value.publicCode)
    ensures room.None? ==> r == PublicCode(None)
  {
    HundredDigits();
    if room.Some? && Truthy(room.value.publicCode) then JsString(room.value.publicCode)
    else "RENTO:" + HundredPlus(if room.Some? then room.value.id else Undefined)
  }

  /** The page computes the same code as `Room.getPublicCode` whether the server sent the
      code or only the numeric id, and for a missing room or id. */
  lemma RoomPublicCodeMatchesServer(id: nat, sent: bool)
    ensures var room := ProviderRoom(if sent then JStr(PublicCode(Some(id))) else Undefined, JNum(id), Undefined);
            RoomPublicCode(Some(room)) == PublicCode(Some(id))
    ensures RoomPublicCode(Some(ProviderRoom(Undefined, Null, Undefined))) == PublicCode(None)
    ensures RoomPublicCode(Some(ProviderRoom(Undefined, Undefined, Undefined))) == PublicCode(None)
  {
    PublicCodeDigits(id);
    HundredDigits();
    var code := PublicCode(Some(id));
    if sent {
      assert Truthy(JStr(code));
    } else {
      var room := ProviderRoom(Undefined, JNum(id), Undefined);
      assert RoomPublicCode(Some(room)) == "RENTO:" + IntToString(100 + id);
    }
  }

  /** `normalizeStatus`: missing becomes "PENDING", PENDING_REQUEST and REQUESTED in any
      case become "PENDING", anything else is upper-cased. */
  function NormalizeStatus(s: JsVal): (r: string)
    ensures !Truthy(s) ==> r == "PENDING"
    ensures Truthy(s) && (Upper(JsString(s)) == "PENDING_REQUEST" || Upper(JsString(s)) == "REQUESTED") ==>
              r == "PENDING"
    ensures Truthy(s) && Upper(JsString(s)) != "PENDING_REQUEST" && Upper(JsString(s)) != "REQUESTED" ==>
              r == Upper(JsString(s))
    ensures r != [] && Upper(r) == r
    ensures r != "PENDING_REQUEST" && r != "REQUESTED"
  {
    UpperIdempotent(JsString(s));
    if !Truthy(s) then "PENDING"
    else
      var u := Upper(JsString(s));
      if u == "PENDING_REQUEST" || u == "REQUESTED" then "PENDING" else u
  }

  /** Normalising twice is normalising once. */
  lemma NormalizeIdempotent(s: JsVal)
    ensures NormalizeStatus(JStr(NormalizeStatus(s))) == NormalizeStatus(s)
  {
  }

  /** On a server status the normalised name is the enum name, PENDING_REQUEST shown as PENDING. */
  lemma NormalizeServerStatus(st: Status)
    ensures NormalizeStatus(JStr(StatusName(st))) == if st == PendingRequest then "PENDING" else StatusName(st)
  {
    StatusNameUpper(st);
  }

  /** `badgeClass` on a normalised status. */
  function BadgeClass(status: string): (r: string)
    ensures r == "bg-yellow-500" <==> status == "PENDING"
    ensures r == "bg-indigo-600" <==> status == "AWAITING_PAYMENT"
    ensures r == "bg-green-600" <==> status == "PAID_CONFIRMED" || status == "CONFIRMED"
    ensures r == "bg-green-700" <==> status == "COMPLETED"
    ensures r == "bg-red-600" <==> status == "DECLINED"
    ensures r == "bg-gray-600" <==>
              status == "EXPIRED_UNPAID" || status == "EXPIRED_NO_VISIT" || status == "CANCELLED_AFTER_VIEWING"
  {
    match status
    case "PENDING" => "bg-yellow-500"
    case "AWAITING_PAYMENT" => "bg-indigo-600"
    case "PAID_CONFIRMED" => "bg-green-600"
    case "CONFIRMED" => "bg-green-600"
    case "COMPLETED" => "bg-green-700"
    case "DECLINED" => "bg-red-600"
    case "EXPIRED_UNPAID" => "bg-gray-600"
    case "EXPIRED_NO_VISIT" => "bg-gray-600"
    case "CANCELLED_AFTER_VIEWING" => "bg-gray-600"
    case _ => "bg-slate-500"
  }

  /** Every server status gets its own colour group on this page (none falls to the
      default), and COMPLETED is told apart from the other green states. */
  lemma ServerStatusBadges(st: Status)
    ensures BadgeClass(NormalizeStatus(JStr(StatusName(st)))) != "bg-slate-500"
    ensures BadgeClass(NormalizeStatus(JStr(StatusName(st)))) == "bg-green-700" <==> st == Completed
  {
    NormalizeServerStatus(st);
  }

  // ---------------------------------------------------------------- card sections

  /** The deadline line under a card. */
  datatype DeadlineLine = PayBy(deadline: JsVal) | VisitBy(deadline: JsVal) | NoLine

  /** The right-hand section of a card: the Approve/Decline buttons, or the badge with the
      deposit line, the deadline line and the payout area's container. */
  datatype Section =
    | Respond
    | Details(status: string, badge: string, depositLine: bool, deadline: DeadlineLine, payoutArea: bool)

  function Deadline(status: string, req: BookingRequest): (r: DeadlineLine)
    ensures r.PayBy? <==> status == "AWAITING_PAYMENT" && Truthy(req.paymentDeadline)
    ensures r.VisitBy? <==> status == "PAID_CONFIRMED" && Truthy(req.viewingDeadline)
    ensures r.PayBy? ==> r.deadline == req.paymentDeadline
    ensures r.VisitBy? ==> r.deadline == req.viewingDeadline
  {
    if status == "AWAITING_PAYMENT" && Truthy(req.paymentDeadline) then PayBy(req.paymentDeadline)
    else if status == "PAID_CONFIRMED" && Truthy(req.viewingDeadline) then VisitBy(req.viewingDeadline)
    else NoLine
  }

  /** The section a booking request gets. */
  function CardSection(req: BookingRequest): (r: Section)
    ensures r.Respond? <==> NormalizeStatus(req.status) == "PENDING"
    ensures r.Details? ==> r.status == NormalizeStatus(req.status) && r.badge == BadgeClass(r.status)
    ensures r.Details? ==> (r.payoutArea <==> r.status == "COMPLETED")
    ensures r.Details? ==> (r.depositLine <==> r.status == "AWAITING_PAYMENT" && (Truthy(req.depositAmount) || Truthy(RoomRent(req))))
    // a card without a room shows the deposit line only when the request carries a deposit
    ensures r.Details? && req.room.None? ==> (r.depositLine <==> r.status == "AWAITING_PAYMENT" && Truthy(req.depositAmount))
  {
    var status := NormalizeStatus(req.status);
    if status == "PENDING" then Respond
    else Details(status, BadgeClass(status),
                 status == "AWAITING_PAYMENT" && (Truthy(req.depositAmount) || Truthy(RoomRent(req))),
                 Deadline(status, req), status == "COMPLETED")
  }

  /** For a booking as the server sends it: only a PENDING_REQUEST can be approved or
      declined, only a COMPLETED booking gets a payout area, the pay-by line belongs to
      AWAITING_PAYMENT and the visit-by line to PAID_CONFIRMED. */
  lemma ServerCardSections(req: BookingRequest, st: Status)
    requires req.status == JStr(StatusName(st))
    ensures CardSection(req).Respond? <==> st == PendingRequest
    ensures CardSection(req).Details? && CardSection(req).payoutArea <==> st == Completed
    ensures CardSection(req).Details? && CardSection(req).deadline.PayBy? ==> st == AwaitingPayment
    ensures CardSection(req).Details? && CardSection(req).deadline.VisitBy? ==> st == PaidConfirmed
  {
    NormalizeServerStatus(st);
  }

  // ---------------------------------------------------------------- payout area

  /** What the payout area of a completed booking shows; `Blank` is the empty container the
      card is rendered with, before its lookup has answered. */
  datatype PayoutArea = Blank | Waiting | PaidChip | RequestButton

  /** `updatePayoutArea`: `lookup` is the payout's `status` field, `None` when the lookup
      failed or answered with an error. */
  function PayoutAreaFor(lookup: Option<JsVal>): (r: PayoutArea)
    ensures r == Waiting <==> lookup.Some? && Up(lookup.value) == "REQUESTED"
    ensures r == PaidChip <==> lookup.Some? && Up(lookup.value) == "PAID"
    ensures r == RequestButton <==> lookup.None? || (Up(lookup.value) != "REQUESTED" && Up(lookup.value) != "PAID")
  {
    if lookup.None? then RequestButton
    else
      var s := Up(lookup.value);
      if s == "REQUESTED" then Waiting
      else if s == "PAID" then PaidChip
      else RequestButton
  }

  /** A payout the server holds shows "waiting" while requested and "paid" once paid; the
      request button appears only when there is none. */
  lemma PayoutAreaOnServer(ps: PayoutStatus)
    ensures PayoutAreaFor(Some(JStr(PayoutStatusName(ps)))) == if ps == Requested then Waiting else PaidChip
    ensures PayoutAreaFor(None) == RequestButton
  {
    UpperFixed(PayoutStatusName(ps));
  }

  /** The cards that get a payout area: normalised status COMPLETED. */
  predicate HasPayoutArea(req: BookingRequest)
  {
    NormalizeStatus(req.status) == "COMPLETED"
  }

  /** The payout areas once `loadBookingRequests` has run: one per card with a payout
      area, under the id its container carries, showing what the payout lookup for that id
      answered (`lookup` stands for the fetch). */
  function CompletedAreas(requests: seq<BookingRequest>, lookup: string -> Option<JsVal>): map<string, PayoutArea>
  {
    if requests == [] then map[]
    else
      var last := requests[|requests| - 1];
      var r := CompletedAreas(requests[..|requests| - 1], lookup);
      if HasPayoutArea(last) then r[JsString(last.id) := PayoutAreaFor(lookup(JsString(last.id)))] else r
  }

  /** Every COMPLETED card's area shows its lookup's answer. */
  lemma {:induction false} CompletedAreasHas(requests: seq<BookingRequest>, lookup: string -> Option<JsVal>, req: BookingRequest)
    requires req in requests && HasPayoutArea(req)
    ensures JsString(req.id) in CompletedAreas(requests, lookup)
    ensures CompletedAreas(requests, lookup)[JsString(req.id)] == PayoutAreaFor(lookup(JsString(req.id)))
    decreases |requests|
  {
    var init := requests[..|requests| - 1];
    if req != requests[|requests| - 1] {
      assert req in init by {
        var k :| 0 <= k < |requests| && requests[k] == req;
        assert init[k] == req;
      }
      CompletedAreasHas(init, lookup, req);
    }
  }

  /** Only COMPLETED cards have an area. */
  lemma {:induction false} CompletedAreasOnly(requests: seq<BookingRequest>, lookup: string -> Option<JsVal>, k: string)
    requires k in CompletedAreas(requests, lookup)
    ensures exists n :: 0 <= n < |requests| && HasPayoutArea(requests[n]) && JsString(requests[n].id) == k
    decreases |requests|
  {
    var init := requests[..|requests| - 1];
    var last := requests[|requests| - 1];
    if !(HasPayoutArea(last) && JsString(last.id) == k) {
      CompletedAreasOnly(init, lookup, k);
      var n :| 0 <= n < |init| && HasPayoutArea(init[n]) && JsString(init[n].id) == k;
      assert requests[n] == init[n];
    }
  }

  /** Overriding a key after a union is overriding it in the right-hand map. */
  lemma UnionUpdate<K, V>(a: map<K, V>, b: map<K, V>, k: K, v: V)
    ensures (a + b)[k := v] == a + b[k := v]
  {
  }

  /** The areas of one more card. */
  lemma AreasSnoc(requests: seq<BookingRequest>, i: nat, lookup: string -> Option<JsVal>)
    requires i < |requests|
    ensures var req := requests[i];
            var id := JsString(req.id);
            CompletedAreas(requests[..i + 1], lookup) ==
              if HasPayoutArea(req) then CompletedAreas(requests[..i], lookup)[id := PayoutAreaFor(lookup(id))]
              else CompletedAreas(requests[..i], lookup)
  {
    var pre := requests[..i + 1];
    assert pre[..|pre| - 1] == requests[..i];
    assert pre[|pre| - 1] == requests[i];
  }

  /** Filling the area of card `i` extends the filled prefix by one card; the area exists,
      as every COMPLETED card was rendered with one. */
  lemma AreasStep(requests: seq<BookingRequest>, i: nat, lookup: string -> Option<JsVal>, blank: map<string, PayoutArea>)
    requires i < |requests|
    requires blank.Keys == CompletedAreas(requests, lookup).Keys
    ensures var req := requests[i];
            var id := JsString(req.id);
            var before := blank + CompletedAreas(requests[..i], lookup);
            var after := blank + CompletedAreas(requests[..i + 1], lookup);
            && (HasPayoutArea(req) ==> id in before && after == before[id := PayoutAreaFor(lookup(id))])
            && (!HasPayoutArea(req) ==> after == before)
  {
    var req := requests[i];
    var id := JsString(req.id);
    AreasSnoc(requests, i, lookup);
    if HasPayoutArea(req) {
      CompletedAreasHas(requests, lookup, req);
      UnionUpdate(blank, CompletedAreas(requests[..i], lookup), id, PayoutAreaFor(lookup(id)));
    }
  }

  /** A union whose left-hand keys are all on the right is the right-hand map. */
  lemma UnionCovered<K, V>(a: map<K, V>, b: map<K, V>)
    requires a.Keys <= b.Keys
    ensures a + b == b
  {
  }

  /** Once every card is filled, each rendered container holds its lookup's answer. */
  lemma AreasDone(requests: seq<BookingRequest>, lookup: string -> Option<JsVal>, blank: map<string, PayoutArea>)
    requires blank.Keys == CompletedAreas(requests, lookup).Keys
    ensures blank + CompletedAreas(requests[..|requests|], lookup) == CompletedAreas(requests, lookup)
  {
    assert requests[..|requests|] == requests;
    UnionCovered(blank, CompletedAreas(requests, lookup));
  }

  /** The body posted by `submitPayoutRequest`. */
  datatype PayoutRequestBody = PayoutRequestBody(bookingId: string, payMethod: string, account: string, roomCode: string)

  datatype Submit = Refused(msg: string) | Send(body: PayoutRequestBody)

  /** The page's payout areas by booking id and the payout-request modal's fields. */
  class ProviderPage {
    var areas: map<string, PayoutArea>
    var modalHidden: bool
    var formBookingId: string
    var formRoomCode: string

    constructor()
      ensures areas == map[] && modalHidden && formBookingId == "" && formRoomCode == ""
    {
      areas, modalHidden := map[], true;
      formBookingId, formRoomCode := "", "";
    }

    /** `updatePayoutArea` for the area of `bookingId`, when that area exists. */
    method UpdatePayoutArea(bookingId: string, lookup: Option<JsVal>)
      modifies this
      ensures areas == if bookingId in old(areas) then old(areas)[bookingId := PayoutAreaFor(lookup)] else old(areas)
      ensures modalHidden == old(modalHidden) && formBookingId == old(formBookingId) && formRoomCode == old(formRoomCode)
    {
      if bookingId in areas {
        areas := areas[bookingId := PayoutAreaFor(lookup)];
      }
    }

    /** `loadBookingRequests`: rendering the cards replaces every earlier area by an empty
        container for each COMPLETED card, then each such card's area is filled in turn
        from its payout lookup. */
    method LoadBookingRequests(requests: seq<BookingRequest>, lookup: string -> Option<JsVal>)
      modifies this
      ensures areas == CompletedAreas(requests, lookup)
      ensures modalHidden == old(modalHidden) && formBookingId == old(formBookingId) && formRoomCode == old(formRoomCode)
    {
      var all := CompletedAreas(requests, lookup);
      var blank := map k | k in all :: Blank;
      areas := blank;
      var i := 0;
      while i < |requests|
        invariant 0 <= i <= |requests|
        invariant areas == blank + CompletedAreas(requests[..i], lookup)
        invariant modalHidden == old(modalHidden) && formBookingId == old(formBookingId) && formRoomCode == old(formRoomCode)
      {
        var req := requests[i];
        ghost var next := blank + CompletedAreas(requests[..i + 1], lookup);
        AreasStep(requests, i, lookup, blank);
        if HasPayoutArea(req) {
          var id := JsString(req.id);
          assert id in areas && next == areas[id := PayoutAreaFor(lookup(id))];
          UpdatePayoutArea(id, lookup(id));
        }
        assert areas == next;
        i := i + 1;
      }
      AreasDone(requests, lookup, blank);
    }

    /** `openPayoutModal`: fills the booking id and room code (a falsy code as "") and shows the modal. */
    method OpenPayoutModal(bookingId: string, roomCode: JsVal)
      modifies this
      ensures formBookingId == bookingId && formRoomCode == (if Truthy(roomCode) then JsString(roomCode) else "")
      ensures !modalHidden && areas == old(areas)
    {
      formBookingId := bookingId;
      formRoomCode := if Truthy(roomCode) then JsString(roomCode) else "";
      modalHidden := false;
    }

    /** `submitPayoutRequest`'s guard: a missing booking id or a blank account is refused;
        otherwise the trimmed account and room code are posted. */
    function SubmitPayoutRequest(payMethod: string, account: string): (r: Submit)
      reads this
      ensures r.Refused? <==> formBookingId == [] || JsTrim(account) == []
      ensures r.Refused? ==> r.msg == "Please enter account/number."
      ensures r.Send? ==> r.body == PayoutRequestBody(formBookingId, payMethod, JsTrim(account), JsTrim(formRoomCode))
    {
      if formBookingId == [] || JsTrim(account) == [] then Refused("Please enter account/number.")
      else Send(PayoutRequestBody(formBookingId, payMethod, JsTrim(account), JsTrim(formRoomCode)))
    }

    /** After a successful request the modal closes and the booking's area, if shown,
        turns to "waiting" at once; a failed one changes nothing. */
    method SubmitAnswered(ok: bool)
      modifies this
      ensures ok ==> modalHidden && areas == if formBookingId in old(areas) then old(areas)[formBookingId := Waiting] else old(areas)
      ensures !ok ==> modalHidden == old(modalHidden) && areas == old(areas)
      ensures formBookingId == old(formBookingId) && formRoomCode == old(formRoomCode)
    {
      if ok {
        modalHidden := true;
        if formBookingId in areas {
          areas := areas[formBookingId := Waiting];
        }
      }
    }
  }

  /** The request is refused exactly when the booking id is missing or the account holds
      only whitespace. */
  lemma SubmitRefusedWhenBlank(page: ProviderPage, payMethod: string, account: string)
    ensures page.SubmitPayoutRequest(payMethod, account).Refused? <==>
              page.formBookingId == [] || forall i :: 0 <= i < |account| ==> IsJsWhitespace(account[i])
  {
    JsTrimEmpty(account);
  }

  /** The area shown right after a successful request agrees with what a later lookup of
      the new REQUESTED payout shows. */
  lemma OptimisticAreaAgrees()
    ensures PayoutAreaFor(Some(JStr(PayoutStatusName(Requested)))) == Waiting
  {
    PayoutAreaOnServer(Requested);
  }
}
