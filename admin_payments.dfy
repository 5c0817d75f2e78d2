/** The admin payments page: the order the list is shown in, the overdue filter, which
    action buttons a row gets, where each button posts, the note and room-code cells,
    and the payout modal. Rows are the JSON objects of `GET /api/payments`; `Date.now()`
    and `Date.parse` are parameters (`parse` gives `None` for NaN). */
module AdminPayments {
  import opened Text
  import opened Domain
  import opened Client
  import opened Sorting
  import opened PaymentDtos
  import opened PaymentForm
  import EscrowSpec

  /** The fields of a payment row that the page reads. */
  datatype PaymentRow = PaymentRow(
    id: JsVal,
    status: JsVal,
    bookingStatus: JsVal,
    updatedAt: JsVal, confirmedAt: JsVal, createdAt: JsVal,
    created_at: JsVal, createdAtTs: JsVal, timestamp: JsVal,
    paymentDeadline: JsVal, viewingDeadline: JsVal,
    roomCode: JsVal, roomId: JsVal, reference: JsVal,
    decisionNote: Option<string>, note: Option<string>)

  // ---------------------------------------------------------------- order

  /** `stamp`: the first present of the six time fields, as milliseconds. */
  function Stamp(p: PaymentRow, parse: string -> Option<int>): int
  {
    MillisOf(FirstPresent([p.updatedAt, p.confirmedAt, p.createdAt, p.created_at, p.createdAtTs, p.timestamp]), parse)
  }

  /** `STATUS_ORDER[up(p.status)] ?? 99`. */
  function Rank(p: PaymentRow): (r: int)
    ensures r == 0 <==> Up(p.status) == "PENDING"
    ensures r == 1 <==> Up(p.status) == "CONFIRMED"
    ensures r == 2 <==> Up(p.status) == "REFUNDED"
    ensures r == 3 <==> Up(p.status) == "FAILED"
    ensures r != 99 ==> 0 <= r <= 3
  {
    var s := Up(p.status);
    if s == "PENDING" then 0
    else if s == "CONFIRMED" then 1
    else if s == "REFUNDED" then 2
    else if s == "FAILED" then 3
    else 99
  }

  /** The comparator handed to `items.sort`. */
  function Compare(a: PaymentRow, b: PaymentRow, parse: string -> Option<int>): (r: int)
    // status groups first, in the order PENDING, CONFIRMED, REFUNDED, FAILED, others
    ensures Rank(a) != Rank(b) ==> (r < 0 <==> Rank(a) < Rank(b))
    // within a group, the newer stamp first
    ensures Rank(a) == Rank(b) ==> (r < 0 <==> Stamp(b, parse) < Stamp(a, parse))
    ensures r == 0 <==> Rank(a) == Rank(b) && Stamp(a, parse) == Stamp(b, parse)
  {
    if Rank(a) != Rank(b) then Rank(a) - Rank(b) else Stamp(b, parse) - Stamp(a, parse)
  }

  /** The comparator as a sort key: rank, then the stamp negated (newest first). */
  function SortKey(parse: string -> Option<int>): PaymentRow -> Key
  {
    p => Key(Rank(p), -Stamp(p, parse))
  }

  /** The comparator puts `a` no later than `b` exactly when the key does, so a stable
      sort by the comparator is the stable sort by the key. */
  lemma CompareIsKeyOrder(a: PaymentRow, b: PaymentRow, parse: string -> Option<int>)
    ensures Compare(a, b, parse) <= 0 <==> KeyLe(SortKey(parse)(a), SortKey(parse)(b))
    ensures Compare(a, b, parse) == 0 <==> SortKey(parse)(a) == SortKey(parse)(b)
  {
  }

  /** `isOverdue`'s `new Date(d).getTime() < now` for a truthy deadline: a number is
      itself, a string is parsed, and NaN compares false. */
  predicate DeadlinePassed(deadline: JsVal, now: int, parse: string -> Option<int>)
  {
    match deadline
    case JNum(n) => n < now
    case JStr(s) => parse(s).Some? && parse(s).value < now
    case _ => false
  }

  /** `isOverdue`: only an exact "PENDING" past its payment deadline or an exact
      "CONFIRMED" past its viewing deadline. */
  predicate IsOverdue(p: PaymentRow, now: int, parse: string -> Option<int>)
    // the status is compared exactly: "pending" or a padded "PENDING " is never overdue
    ensures IsOverdue(p, now, parse) ==> p.status == JStr("PENDING") || p.status == JStr("CONFIRMED")
    // the deadline that is checked depends on the status alone
    ensures IsOverdue(p, now, parse) && p.status == JStr("PENDING") ==> DeadlinePassed(p.paymentDeadline, now, parse)
    ensures IsOverdue(p, now, parse) && p.status == JStr("CONFIRMED") ==> DeadlinePassed(p.viewingDeadline, now, parse)
  {
    || (p.status == JStr("PENDING") && Truthy(p.paymentDeadline) && DeadlinePassed(p.paymentDeadline, now, parse))
    || (p.status == JStr("CONFIRMED") && Truthy(p.viewingDeadline) && DeadlinePassed(p.viewingDeadline, now, parse))
  }

  /** A payment that is overdue stays overdue as time goes on. */
  lemma OverdueStaysOverdue(p: PaymentRow, now: int, later: int, parse: string -> Option<int>)
    requires IsOverdue(p, now, parse) && now <= later
    ensures IsOverdue(p, later, parse)
  {
  }

  /** `items.filter(isOverdue)`. */
  function OverdueOnly(items: seq<PaymentRow>, now: int, parse: string -> Option<int>): (r: seq<PaymentRow>)
    ensures |r| <= |items|
    ensures forall x :: x in r <==> x in items && IsOverdue(x, now, parse)
  {
    if items == [] then []
    else (if IsOverdue(items[0], now, parse) then [items[0]] else []) + OverdueOnly(items[1..], now, parse)
  }

  /** The filter distributes over concatenation: it keeps the rows' order and repeats. */
  lemma {:induction false} OverdueOnlyAppend(a: seq<PaymentRow>, b: seq<PaymentRow>, now: int, parse: string -> Option<int>)
    ensures OverdueOnly(a + b, now, parse) == OverdueOnly(a, now, parse) + OverdueOnly(b, now, parse)
    decreases |a|
  {
    if a == [] {
      assert a + b == b;
    } else {
      assert (a + b)[0] == a[0];
      assert (a + b)[1..] == a[1..] + b;
      OverdueOnlyAppend(a[1..], b, now, parse);
    }
  }

  /** On one row the filter keeps it exactly when it is overdue; with the lemma above
      this fixes the filtered list completely. */
  lemma OverdueOnlySingle(x: PaymentRow, now: int, parse: string -> Option<int>)
    ensures OverdueOnly([x], now, parse) == if IsOverdue(x, now, parse) then [x] else []
  {
  }

  /** The rows `loadPayments` renders: filtered when "overdue only" is ticked, then sorted. */
  function Displayed(items: seq<PaymentRow>, overdueOnly: bool, now: int, parse: string -> Option<int>): seq<PaymentRow>
  {
    SortBy(if overdueOnly then OverdueOnly(items, now, parse) else items, SortKey(parse))
  }

  /** The list is in comparator order (status rank first, newest first within a rank),
      holds exactly the fetched (or overdue) rows, keeps rows the comparator ties in
      their fetched order, and with the filter on shows only overdue rows. */
  lemma DisplayedOrder(items: seq<PaymentRow>, overdueOnly: bool, now: int, parse: string -> Option<int>)
    ensures var d := Displayed(items, overdueOnly, now, parse);
            var shown := if overdueOnly then OverdueOnly(items, now, parse) else items;
            && multiset(d) == multiset(shown)
            && (forall i, j :: 0 <= i < j < |d| ==> Compare(d[i], d[j], parse) <= 0)
            && (forall k :: WithKey(d, SortKey(parse), k) == WithKey(shown, SortKey(parse), k))
            && (overdueOnly ==> forall i :: 0 <= i < |d| ==> IsOverdue(d[i], now, parse))
  {
    var shown := if overdueOnly then OverdueOnly(items, now, parse) else items;
    var d := Displayed(items, overdueOnly, now, parse);
    SortBySorted(shown, SortKey(parse));
    SortByPermutes(shown, SortKey(parse));
    forall i, j | 0 <= i < j < |d|
      ensures Compare(d[i], d[j], parse) <= 0
    {
      CompareIsKeyOrder(d[i], d[j], parse);
    }
    forall k
      ensures WithKey(d, SortKey(parse), k) == WithKey(shown, SortKey(parse), k)
    {
      SortByStable(shown, SortKey(parse), k);
    }
    if overdueOnly {
      forall i | 0 <= i < |d|
        ensures IsOverdue(d[i], now, parse)
      {
        assert d[i] in multiset(shown);
      }
    }
  }

  // ---------------------------------------------------------------- actions

  datatype Action = Confirm | RefundCancel | Complete

  /** The button's `data-act` value. */
  function ActName(a: Action): string
  {
    match a
    case Confirm => "confirm"
    case RefundCancel => "refund-cancel"
    case Complete => "complete"
  }

  /** The booking states in which the page hides every action. */
  predicate FinalStatus(st: Status)
  {
    st == Completed || st == CancelledAfterViewing || st == ExpiredUnpaid || st == ExpiredNoVisit
  }

  /** `isFinalBooking`: the upper-cased booking status is one of the four final names. */
  predicate IsFinalBooking(p: PaymentRow)
  {
    var bs := Up(p.bookingStatus);
    bs == "COMPLETED" || bs == "CANCELLED_AFTER_VIEWING" || bs == "EXPIRED_UNPAID" || bs == "EXPIRED_NO_VISIT"
  }

  /** `actionButtons`: the buttons of a row, in order. The payment status is compared
      exactly, the booking status case-insensitively. */
  function ActionsFor(p: PaymentRow): (r: seq<Action>)
    ensures IsFinalBooking(p) ==> r == []
    ensures Confirm in r <==> !IsFinalBooking(p) && p.status == JStr("PENDING")
    ensures RefundCancel in r <==> !IsFinalBooking(p) && p.status == JStr("CONFIRMED")
    ensures Complete in r <==> RefundCancel in r
    ensures Confirm in r ==> r == [Confirm]
    ensures RefundCancel in r ==> r == [RefundCancel, Complete]
  {
    if IsFinalBooking(p) then []
    else if p.status == JStr("PENDING") then [Confirm]
    else if p.status == JStr("CONFIRMED") then [RefundCancel, Complete]
    else []
  }

  /** The server endpoint an action posts to. */
  function Endpoint(a: Action, id: string): string
  {
    "/api/payments/" + id +
    match a
    case Confirm => "/confirm"
    case RefundCancel => "/refund-and-cancel"
    case Complete => "/complete-and-release"
  }

  /** What a click on an action button does before the response: the busy label, whether
      the action cell is blanked, and the path posted to (`None`: "Unknown action"). */
  datatype Click = Click(busyText: string, blanksCell: bool, path: Option<string>)

  /** `onActionClick` for a button with `data-id` `id` and `data-act` `act`. Only the
      three action names the page renders are modelled; an `act` naming a property every
      object inherits (such as "toString") would make `map[act]` a function rather than
      text, which the busy label here does not capture. */
  function OnActionClick(act: string, id: string): (r: Click)
    ensures r.path.Some? <==> act == "confirm" || act == "refund-cancel" || act == "complete"
    ensures r.blanksCell <==> act == "complete" || act == "refund-cancel"
    ensures r.path.None? ==> r.busyText == "Working…"
  {
    if act == "confirm" then Click("Confirming…", false, Some("/api/payments/" + id + "/confirm"))
    else if act == "refund-cancel" then Click("Processing…", true, Some("/api/payments/" + id + "/refund-and-cancel"))
    else if act == "complete" then Click("Completing…", true, Some("/api/payments/" + id + "/complete-and-release"))
    else Click("Working…", false, None)
  }

  /** A click reaches an action's endpoint exactly when the button is that action's, and
      distinct actions reach distinct endpoints. */
  lemma ClickReachesEndpoint(act: string, id: string, a: Action, b: Action)
    ensures OnActionClick(act, id).path == Some(Endpoint(a, id)) <==> act == ActName(a)
    ensures Endpoint(a, id) == Endpoint(b, id) <==> a == b
  {
    if Endpoint(a, id) == Endpoint(b, id) {
      assert |Endpoint(a, id)| == |Endpoint(b, id)|;
    }
    var p := OnActionClick(act, id).path;
    if p == Some(Endpoint(a, id)) {
      assert |p.value| == |Endpoint(a, id)|;
    }
  }

  /** Every button the page renders posts to its action's endpoint. */
  lemma ButtonsPostTheirEndpoint(p: PaymentRow, id: string)
    ensures forall a :: a in ActionsFor(p) ==> OnActionClick(ActName(a), id).path == Some(Endpoint(a, id))
  {
  }

  // ---------------------------------------------------------------- cells

  /** `(x || "").trim()` for a note field. */
  function NoteText(x: Option<string>): string
  {
    if x.Some? then JsTrim(x.value) else ""
  }

  /** `resolveNote`: the trimmed decision note, or the trimmed payment note when that is blank. */
  function ResolveNote(p: PaymentRow): (r: string)
    ensures NoteText(p.decisionNote) != [] ==> r == NoteText(p.decisionNote)
    ensures NoteText(p.decisionNote) == [] ==> r == NoteText(p.note)
  {
    var dn := NoteText(p.decisionNote);
    if dn != [] then dn else NoteText(p.note)
  }

  /** The note cell is empty exactly when both notes are missing or whitespace only. */
  lemma ResolveNoteEmpty(p: PaymentRow)
    ensures ResolveNote(p) == [] <==>
              (p.decisionNote.Some? ==> forall i :: 0 <= i < |p.decisionNote.value| ==> IsJsWhitespace(p.decisionNote.value[i]))
              && (p.note.Some? ==> forall i :: 0 <= i < |p.note.value| ==> IsJsWhitespace(p.note.value[i]))
  {
    if p.decisionNote.Some? {
      JsTrimEmpty(p.decisionNote.value);
    }
    if p.note.Some? {
      JsTrimEmpty(p.note.value);
    }
  }

  /** The characters of `[A-Za-z0-9:-]`. */
  predicate IsCodeChar(c: char)
  {
    ('A' <= c <= 'Z') || ('a' <= c <= 'z') || ('0' <= c <= '9') || c == ':' || c == '-'
  }

  /** The greedy `[A-Za-z0-9:-]*` run at the start of `s`. */
  function CodeRun(s: string): (r: string)
    ensures |r| <= |s| && r == s[..|r|]
    ensures forall i :: 0 <= i < |r| ==> IsCodeChar(r[i])
    ensures |r| < |s| ==> !IsCodeChar(s[|r|])
  {
    if s != [] && IsCodeChar(s[0]) then [s[0]] + CodeRun(s[1..]) else []
  }

  /** `/ROOM:([A-Za-z0-9:-]+)/` can match starting at index `i`. */
  predicate MatchAt(s: string, i: int)
  {
    OccursAt(s, "ROOM:", i) && i + 5 < |s| && IsCodeChar(s[i + 5])
  }

  /** The leftmost index at or after `i` where the pattern matches. */
  function MatchFrom(s: string, i: nat): (r: Option<nat>)
    requires i <= |s|
    ensures r.Some? ==> i <= r.value < |s| && MatchAt(s, r.value)
    ensures r.Some? ==> forall k :: i <= k < r.value ==> !MatchAt(s, k)
    ensures r.None? ==> forall k :: i <= k < |s| ==> !MatchAt(s, k)
    decreases |s| - i
  {
    if i == |s| then None
    else if MatchAt(s, i) then Some(i)
    else MatchFrom(s, i + 1)
  }

  /** The regular expression's capture group on `String(p.reference)`, if it matches. */
  function RoomInReference(s: string): (r: Option<string>)
    ensures r.Some? ==> r.value != []
  {
    match MatchFrom(s, 0)
    case None => None
    case Some(k) => Some(CodeRun(s[k + 5..]))
  }

  /** `resolveRoomCode`: a non-blank room code as sent, then a non-blank room id, then the
      code inside the reference, then "-". The cell is never empty. */
  function ResolveRoomCode(p: PaymentRow): (r: string)
    ensures r != []
    ensures Truthy(p.roomCode) && JsTrim(JsString(p.roomCode)) != [] ==> r == JsString(p.roomCode)
    ensures !(Truthy(p.roomCode) && JsTrim(JsString(p.roomCode)) != [])
              && !Nullish(p.roomId) && JsTrim(JsString(p.roomId)) != [] ==>
              r == JsString(p.roomId)
    ensures !(Truthy(p.roomCode) && JsTrim(JsString(p.roomCode)) != [])
              && !(!Nullish(p.roomId) && JsTrim(JsString(p.roomId)) != []) ==>
              r == if Truthy(p.reference) && RoomInReference(JsString(p.reference)).Some?
                   then RoomInReference(JsString(p.reference)).value else "-"
  {
    if Truthy(p.roomCode) && JsTrim(JsString(p.roomCode)) != [] then JsString(p.roomCode)
    else if !Nullish(p.roomId) && JsTrim(JsString(p.roomId)) != [] then JsString(p.roomId)
    else if Truthy(p.reference) && RoomInReference(JsString(p.reference)).Some? then
      RoomInReference(JsString(p.reference)).value
    else "-"
  }

  /** Appending text that starts outside the class does not lengthen the run. */
  lemma {:induction false} CodeRunAppend(x: string, y: string)
    requires y != [] ==> !IsCodeChar(y[0])
    ensures CodeRun(x + y) == CodeRun(x)
    decreases |x|
  {
    if x == [] {
      assert x + y == y;
    } else {
      assert (x + y)[0] == x[0];
      assert (x + y)[1..] == x[1..] + y;
      CodeRunAppend(x[1..], y);
    }
  }

  /** No match starts inside the "TXN:" + txnId + "|" part of a reference. */
  lemma NoMatchInTxn(txnId: string, code: string, bookingId: string, k: nat)
    requires !Contains(txnId, "ROOM:")
    requires k < 5 + |txnId|
    ensures !OccursAt(Reference(txnId, code, bookingId), "ROOM:", k)
  {
    var s := Reference(txnId, code, bookingId);
    var bar := 4 + |txnId|;
    var w := s[k..k + 5];
    if k < 4 {
      assert w[0] == "TXN:"[k];
      assert forall m :: 0 <= m < 4 ==> "TXN:"[m] != 'R';
    } else if k + 5 <= bar {
      assert w == txnId[k - 4..k + 1];
      assert w == "ROOM:" ==> OccursAt(txnId, "ROOM:", k - 4);
    } else {
      assert w[bar - k] == '|';
      assert forall m :: 0 <= m < 5 ==> "ROOM:"[m] != '|';
    }
  }

  /** The reference `payment.js` builds gives back the room code's leading
      `[A-Za-z0-9:-]` run, provided the transaction id holds no "ROOM:" and the code
      starts with a character of the class. */
  lemma ReferenceRoom(txnId: string, code: string, bookingId: string)
    requires !Contains(txnId, "ROOM:")
    requires code != [] && IsCodeChar(code[0])
    ensures RoomInReference(Reference(txnId, code, bookingId)) == Some(CodeRun(code))
  {
    var s := Reference(txnId, code, bookingId);
    var j := 5 + |txnId|;
    var rest := code + ("|BK:" + bookingId);
    RoomLabelAt(txnId, code, bookingId);
    assert s[j + 5] == rest[0] == code[0];
    NoMatchBefore(txnId, code, bookingId);
    LeftmostMatch(s, 0, j);
    CodeRunAppend(code, "|BK:" + bookingId);
  }

  /** In a reference, "ROOM:" sits right after "TXN:" + txnId + "|", followed by the code
      and the booking part. */
  lemma RoomLabelAt(txnId: string, code: string, bookingId: string)
    ensures var s := Reference(txnId, code, bookingId); var j := 5 + |txnId|;
            j + 5 <= |s| && s[j..j + 5] == "ROOM:" && s[j + 5..] == code + ("|BK:" + bookingId)
  {
    var s := Reference(txnId, code, bookingId);
    assert s == ("TXN:" + txnId + "|") + "ROOM:" + (code + ("|BK:" + bookingId));
  }

  /** Nothing before the room label matches. */
  lemma NoMatchBefore(txnId: string, code: string, bookingId: string)
    requires !Contains(txnId, "ROOM:")
    ensures forall k :: 0 <= k < 5 + |txnId| ==> !MatchAt(Reference(txnId, code, bookingId), k)
  {
    forall k | 0 <= k < 5 + |txnId|
      ensures !MatchAt(Reference(txnId, code, bookingId), k)
    {
      NoMatchInTxn(txnId, code, bookingId, k);
    }
  }

  /** A match at `j` with none between `i` and `j` is the one `MatchFrom(s, i)` finds. */
  lemma {:induction false} LeftmostMatch(s: string, i: nat, j: nat)
    requires i <= j < |s| && MatchAt(s, j)
    requires forall k :: i <= k < j ==> !MatchAt(s, k)
    ensures MatchFrom(s, i) == Some(j)
    decreases j - i
  {
    if i < j {
      LeftmostMatch(s, i + 1, j);
    }
  }

  /** A code made only of class characters round-trips whole. */
  lemma ReferenceRoundTrip(txnId: string, code: string, bookingId: string)
    requires !Contains(txnId, "ROOM:")
    requires code != [] && forall i :: 0 <= i < |code| ==> IsCodeChar(code[i])
    ensures RoomInReference(Reference(txnId, code, bookingId)) == Some(code)
  {
    ReferenceRoom(txnId, code, bookingId);
    CodeRunAppend(code, []);
    assert code + [] == code;
  }

  /** A server room's public code ("RENTO:" and digits) round-trips through the reference. */
  lemma PublicCodeRoundTrip(txnId: string, id: nat, bookingId: string)
    requires !Contains(txnId, "ROOM:")
    ensures RoomInReference(Reference(txnId, PublicCode(Some(id)), bookingId)) == Some(PublicCode(Some(id)))
  {
    PublicCodeDigits(id);
    var code := PublicCode(Some(id));
    var digits := NatToString(100 + id);
    assert code == "RENTO:" + digits;
    assert forall i :: 0 <= i < |code| ==> IsCodeChar(code[i]) by {
      forall i | 0 <= i < |code|
        ensures IsCodeChar(code[i])
      {
        if i >= 6 {
          assert code[i] == digits[i - 6];
        }
      }
    }
    ReferenceRoundTrip(txnId, code, bookingId);
  }

  /** The "ID#" fallback of `payment.js` does not survive: '#' is outside the class, so a
      room known only by its id reads back as "ID". */
  lemma IdFallbackLosesId(txnId: string, id: nat, bookingId: string)
    requires !Contains(txnId, "ROOM:")
    ensures RoomInReference(Reference(txnId, "ID#" + NatToString(id), bookingId)) == Some("ID")
  {
    var digits := NatToString(id);
    var rest := "#" + digits;
    var code := "ID#" + digits;
    assert code == "ID" + rest;
    assert code[0] == 'I';
    ReferenceRoom(txnId, code, bookingId);
    CodeRunAppend("ID", rest);
    CodeRunWhole("ID");
  }

  /** A string made only of class characters is its own run. */
  lemma CodeRunWhole(s: string)
    requires forall i :: 0 <= i < |s| ==> IsCodeChar(s[i])
    ensures CodeRun(s) == s
  {
  }

  /** A row without a room code or room id shows the code recovered from its reference. */
  lemma ResolveFromReference(p: PaymentRow, txnId: string, code: string, bookingId: string)
    requires !Truthy(p.roomCode) && Nullish(p.roomId)
    requires p.reference == JStr(Reference(txnId, code, bookingId))
    requires !Contains(txnId, "ROOM:")
    requires code != [] && forall i :: 0 <= i < |code| ==> IsCodeChar(code[i])
    ensures ResolveRoomCode(p) == code
  {
    ReferenceRoundTrip(txnId, code, bookingId);
  }

  // ---------------------------------------------------------------- rows from the server

  function OptString(x: Option<string>): JsVal
  {
    if x.Some? then JStr(x.value) else Null
  }

  /** An instant as JSON: an ISO string through `iso`, null when absent. */
  function OptInstant(x: Option<int>, iso: int -> string): JsVal
  {
    if x.Some? then JStr(iso(x.value)) else Null
  }

  /** The row the page receives for a `PaymentDto`: the DTO has no `updatedAt`, room id or
      alternate time fields, so those are missing. */
  function RowOf(d: PaymentDto, iso: int -> string): PaymentRow
  {
    PaymentRow(JNum(d.id), OptString(d.status), OptString(d.bookingStatus),
               Undefined, OptInstant(d.confirmedAt, iso), OptInstant(d.createdAt, iso),
               Undefined, Undefined, Undefined,
               OptInstant(d.paymentDeadline, iso), OptInstant(d.viewingDeadline, iso),
               OptString(d.roomCode), Undefined, OptString(d.reference),
               d.decisionNote, d.note)
  }

  /** `iso` writes instants as non-empty strings that `parse` reads back. */
  ghost predicate IsoReadsBack(iso: int -> string, parse: string -> Option<int>)
  {
    && (forall t :: iso(t) != [])
    && (forall t :: parse(iso(t)) == Some(t))
  }

  lemma ReadBack(iso: int -> string, parse: string -> Option<int>, t: int)
    requires IsoReadsBack(iso, parse)
    ensures iso(t) != [] && parse(iso(t)) == Some(t)
  {
  }

  /** On a server row the page's overdue test is the server's own strict `deadline < now`
      on the matching deadline. */
  lemma OverdueMatchesServer(id: nat, p: Payment, view: Option<BookingView>, now: int,
                             iso: int -> string, parse: string -> Option<int>)
    requires IsoReadsBack(iso, parse)
    ensures var d := From(id, p, view);
            IsOverdue(RowOf(d, iso), now, parse) <==>
              || (p.status == Pending && EscrowSpec.Before(d.paymentDeadline, now))
              || (p.status == PaymentStatus.Confirmed && EscrowSpec.Before(d.viewingDeadline, now))
  {
    var d := From(id, p, view);
    if d.paymentDeadline.Some? {
      ReadBack(iso, parse, d.paymentDeadline.value);
    }
    if d.viewingDeadline.Some? {
      ReadBack(iso, parse, d.viewingDeadline.value);
    }
  }

  /** On a server row the buttons follow the payment status, except that a booking in a
      final state shows none. */
  lemma ActionsOnServerRow(id: nat, p: Payment, view: Option<BookingView>, iso: int -> string)
    ensures var r := ActionsFor(RowOf(From(id, p, view), iso));
            r == if view.Some? && FinalStatus(view.value.booking.status) then []
                 else match p.status
                   case Pending => [Confirm]
                   case Confirmed => [RefundCancel, Complete]
                   case _ => []
  {
    var row := RowOf(From(id, p, view), iso);
    if view.Some? {
      StatusNameUpper(view.value.booking.status);
      assert Up(row.bookingStatus) == StatusName(view.value.booking.status);
    }
  }

  /** On a server row the time used for ordering is `confirmedAt` when set and `createdAt`
      otherwise. */
  lemma StampOnServerRow(id: nat, p: Payment, view: Option<BookingView>,
                         iso: int -> string, parse: string -> Option<int>)
    requires IsoReadsBack(iso, parse)
    ensures Stamp(RowOf(From(id, p, view), iso), parse) ==
              if p.confirmedAt.Some? then p.confirmedAt.value else p.createdAt
  {
    var row := RowOf(From(id, p, view), iso);
    var fields := [row.updatedAt, row.confirmedAt, row.createdAt, row.created_at, row.createdAtTs, row.timestamp];
    ReadBack(iso, parse, p.createdAt);
    if p.confirmedAt.Some? {
      ReadBack(iso, parse, p.confirmedAt.value);
      assert FirstPresent(fields) == fields[1];
    } else {
      assert FirstPresent(fields) == fields[2];
    }
  }

  /** On a server row the rank is the payment status's position in
      PENDING < CONFIRMED < REFUNDED < FAILED. */
  lemma RankOnServerRow(id: nat, p: Payment, view: Option<BookingView>, iso: int -> string)
    ensures Rank(RowOf(From(id, p, view), iso)) ==
              match p.status
              case Pending => 0
              case Confirmed => 1
              case Refunded => 2
              case Failed => 3
  {
    UpperFixed(PaymentStatusName(p.status));
  }

  // ---------------------------------------------------------------- payout modal

  /** The flat payout view of `GET /api/provider-payouts/by-booking/{id}`. */
  datatype PayoutView = PayoutView(id: JsVal, status: JsVal)

  /** The modal and the `currentPayout` global. */
  class PayoutModal {
    var current: Option<PayoutView>
    var hidden: bool
    var markPaidDisabled: bool

    constructor()
      ensures current.None? && hidden && !markPaidDisabled
    {
      current, hidden, markPaidDisabled := None, true, false;
    }

    /** `openPayoutForBooking`: a failed lookup (`None`) only toasts; a found payout
        becomes current, the modal opens, and "mark paid" is disabled once it is PAID. */
    method Open(fetched: Option<PayoutView>)
      modifies this
      ensures fetched.None? ==> current == old(current) && hidden == old(hidden) && markPaidDisabled == old(markPaidDisabled)
      ensures fetched.Some? ==> current == fetched && !hidden && (markPaidDisabled <==> Up(fetched.value.status) == "PAID")
    {
      if fetched.Some? {
        current := fetched;
        markPaidDisabled := Up(fetched.value.status) == "PAID";
        hidden := false;
      }
    }

    /** `markPayoutPaid`'s request: nothing before a payout was opened. */
    function MarkPaidPath(): (r: Option<string>)
      reads this
      ensures r.Some? <==> current.Some?
    {
      if current.Some? then Some("/api/provider-payouts/" + JsString(current.value.id) + "/mark-paid") else None
    }

    /** After the mark-paid response: success closes the modal, failure leaves it. */
    method MarkPaidAnswered(ok: bool)
      modifies this
      ensures hidden == (old(hidden) || ok)
      ensures current == old(current) && markPaidDisabled == old(markPaidDisabled)
    {
      if ok {
        hidden := true;
      }
    }
  }
}
