/** The renter dashboard's helpers: the deadline countdown, `timeAgo`, `tsMillis`, the
    room code and badge shown on a booking card, and when the cancel and visit-decision
    buttons appear. Clock readings are parameters; `Date.parse` is the parameter
    `parse`, whose `None` is NaN. */
module RenterDashboard {
  import opened Text
  import opened Domain
  import opened Client

  // ---------------------------------------------------------------- countdown

  /** Whole seconds left: `Math.max(0, Math.floor((deadline - now) / 1000))` (the divisor
      is positive, so `/` is the floor division). */
  function Remaining(deadline: int, now: int): nat
  {
    var q := (deadline - now) / 1000;
    if q < 0 then 0 else q
  }

  /** `String(n).padStart(2, "0")`. */
  function Pad2(n: nat): (r: string)
    ensures |r| >= 2 && AllDigits(r)
    ensures n < 100 ==> |r| == 2 && DigitsValue(r) == n
  {
    NatToStringValue(n);
    var t := NatToString(n);
    if n < 10 then
      assert |t| == 1 by { NatToStringAtMost(n, 1); }
      LeadingZerosValue(1, t);
      assert "0" == Repeat('0', 1);
      "0" + t
    else
      assert Pow10(1) == 10;
      DigitsLengthAtLeast(t, 1);
      if n < 100 then
        assert Pow10(2) == 100;
        NatToStringLength(n, 1);
        t
      else t
  }

  /** The text one tick writes: days, then hours, minutes and seconds with two digits. */
  function CountdownLabel(d: nat, h: nat, m: nat, s: nat): string
  {
    NatToString(d) + "d " + Pad2(h) + ":" + Pad2(m) + ":" + Pad2(s)
  }

  /** One tick of `startCountdown` (and of `startDeadlineCountdown` once its deadline has
      parsed to a number of milliseconds): the remaining seconds are
      peeled into days, hours, minutes and seconds by subtracting each part in turn. */
  method Tick(deadline: int, now: int) returns (d: nat, h: nat, m: nat, s: nat, text: string)
    ensures h < 24 && m < 60 && s < 60
    ensures d * 86400 + h * 3600 + m * 60 + s == Remaining(deadline, now)
    ensures text == CountdownLabel(d, h, m, s)
    ensures deadline - now < 1000 ==> text == "0d 00:00:00"
  {
    var diff := Remaining(deadline, now);
    d := diff / 86400;
    diff := diff - d * 86400;
    h := diff / 3600;
    diff := diff - h * 3600;
    m := diff / 60;
    s := diff - m * 60;
    text := CountdownLabel(d, h, m, s);
    if deadline - now < 1000 {
      assert NatToString(0) == "0";
      assert Pad2(0) == "00";
    }
  }

  /** A non-zero multiple of `k` is at least `k` away from zero. */
  lemma MultipleBound(x: int, k: int)
    requires k >= 0
    ensures x >= 1 ==> x * k >= k
    ensures x <= -1 ==> x * k <= -k
  {
  }

  /** Only one split of a number of seconds respects the bounds: the tick's is it. */
  lemma SplitUnique(d: nat, h: nat, m: nat, s: nat, d2: nat, h2: nat, m2: nat, s2: nat)
    requires h < 24 && m < 60 && s < 60 && h2 < 24 && m2 < 60 && s2 < 60
    requires d * 86400 + h * 3600 + m * 60 + s == d2 * 86400 + h2 * 3600 + m2 * 60 + s2
    ensures d == d2 && h == h2 && m == m2 && s == s2
  {
    var r := h * 3600 + m * 60 + s;
    var r2 := h2 * 3600 + m2 * 60 + s2;
    assert (d - d2) * 86400 == r2 - r;
    MultipleBound(d - d2, 86400);
    var t := m * 60 + s;
    var t2 := m2 * 60 + s2;
    assert (h - h2) * 3600 == t2 - t;
    MultipleBound(h - h2, 3600);
    assert (m - m2) * 60 == s2 - s;
    MultipleBound(m - m2, 60);
  }

  /** `startCountdown`: nothing is shown without a (truthy) millisecond deadline, otherwise
      the first tick's text. */
  method StartCountdown(deadline: Option<int>, now: int) returns (text: Option<string>)
    ensures deadline.None? || deadline.value == 0 ==> text.None?
    ensures deadline.Some? && deadline.value != 0 ==>
              exists d: nat, h: nat, m: nat, s: nat ::
                && h < 24 && m < 60 && s < 60
                && d * 86400 + h * 3600 + m * 60 + s == Remaining(deadline.value, now)
                && text == Some(CountdownLabel(d, h, m, s))
  {
    if deadline.None? || deadline.value == 0 {
      return None;
    }
    var d, h, m, s, shown := Tick(deadline.value, now);
    text := Some(shown);
  }

  /** The first tick's text when every part is NaN: `String(NaN)` is "NaN" and padding
      does not touch a three-character string. */
  const NaNLabel := "NaNd NaN:NaN:NaN"

  /** `startDeadlineCountdown`: the guard tests the ISO text the server sent (null or "" show
      nothing), not the time it denotes, so a deadline at the epoch still counts down; text
      that does not parse makes every part NaN. */
  method StartDeadlineCountdown(deadlineIso: Option<string>, now: int, parse: string -> Option<int>)
    returns (text: Option<string>)
    ensures deadlineIso.None? || deadlineIso.value == "" ==> text.None?
    ensures deadlineIso.Some? && deadlineIso.value != "" && parse(deadlineIso.value).None? ==>
              text == Some(NaNLabel)
    ensures deadlineIso.Some? && deadlineIso.value != "" && parse(deadlineIso.value).Some? ==>
              exists d: nat, h: nat, m: nat, s: nat ::
                && h < 24 && m < 60 && s < 60
                && d * 86400 + h * 3600 + m * 60 + s == Remaining(parse(deadlineIso.value).value, now)
                && text == Some(CountdownLabel(d, h, m, s))
  {
    if deadlineIso.None? || deadlineIso.value == "" {
      return None;
    }
    var deadline := parse(deadlineIso.value);
    if deadline.None? {
      return Some(NaNLabel);
    }
    var d, h, m, s, shown := Tick(deadline.value, now);
    text := Some(shown);
  }

  /** The two countdowns differ at the epoch: the millisecond one shows nothing for a zero
      deadline, the ISO one counts down from it and, once the epoch has passed, shows zero. */
  method EpochDeadlineDiffers(iso: string, now: int, parse: string -> Option<int>)
    returns (fromMs: Option<string>, fromIso: Option<string>)
    requires iso != "" && parse(iso) == Some(0)
    ensures fromMs.None? && fromIso.Some?
    ensures now >= 0 ==> fromIso == Some("0d 00:00:00")
  {
    fromMs := StartCountdown(Some(0), now);
    fromIso := StartDeadlineCountdown(Some(iso), now, parse);
    if now >= 0 {
      assert Remaining(0, now) == 0;
      assert CountdownLabel(0, 0, 0, 0) == "0d 00:00:00";
    }
  }

  // ---------------------------------------------------------------- timeAgo

  datatype Unit = Seconds | Minutes | Hours | Days

  function UnitSeconds(u: Unit): nat
  {
    match u
    case Seconds => 1
    case Minutes => 60
    case Hours => 3600
    case Days => 86400
  }

  function UnitSuffix(u: Unit): string
  {
    match u
    case Seconds => "s ago"
    case Minutes => "m ago"
    case Hours => "h ago"
    case Days => "d ago"
  }

  /** How long ago, as `timeAgo` counts it; `None` is NaN (an unparseable date). */
  datatype Ago = Ago(count: nat, unit: Unit) | NotANumber

  /** The instant `timeAgo` compares with: a number as is, a string through
      `Date.parse`, anything else 0. */
  function TimeOf(ts: JsVal, parse: string -> Option<int>): Option<int>
  {
    match ts
    case JNum(n) => Some(n)
    case JStr(s) => parse(s)
    case _ => Some(0)
  }

  /** `timeAgo`'s choice: seconds below a minute, minutes below an hour, hours below a
      day, days otherwise, each count rounded down; future instants count as 0s. */
  function AgoOf(ts: JsVal, parse: string -> Option<int>, now: int): (a: Ago)
    ensures TimeOf(ts, parse).None? <==> a.NotANumber?
    ensures a.Ago? ==>
              var secs := Remaining(now, TimeOf(ts, parse).value);
              && a.count == secs / UnitSeconds(a.unit)
              && (a.unit == Seconds <==> secs < 60)
              && (a.unit == Minutes <==> 60 <= secs < 3600)
              && (a.unit == Hours <==> 3600 <= secs < 86400)
              && (a.unit == Days <==> 86400 <= secs)
  {
    match TimeOf(ts, parse)
    case None => NotANumber
    case Some(t) =>
      var sec := Remaining(now, t);
      if sec < 60 then Ago(sec, Seconds)
      else
        var min := sec / 60;
        if min < 60 then Ago(min, Minutes)
        else
          var hr := min / 60;
          assert hr == sec / 3600 by { DivDiv(sec, 60, 60); }
          if hr < 24 then Ago(hr, Hours)
          else
            DivDiv(sec, 3600, 24);
            Ago(hr / 24, Days)
  }

  /** Division is determined by quotient and remainder. */
  lemma DivUnique(a: nat, m: nat, q: nat, r: nat)
    requires m > 0 && r < m && a == q * m + r
    ensures a / m == q
  {
    MultipleBound(a / m - q, m);
  }

  lemma DivDiv(a: nat, b: nat, c: nat)
    requires b > 0 && c > 0
    ensures a / b / c == a / (b * c)
  {
    var q := a / b;
    var q2 := q / c;
    var rr := (q % c) * b + a % b;
    assert q == q2 * c + q % c;
    assert a == q * b + a % b;
    assert a == q2 * (b * c) + rr by {
      assert q * b == q2 * (b * c) + (q % c) * b;
    }
    assert rr < b * c by {
      MultipleBound(c - q % c, b);
    }
    DivUnique(a, b * c, q2, rr);
  }

  /** `timeAgo(ts)`. */
  function TimeAgo(ts: JsVal, parse: string -> Option<int>, now: int): (r: string)
    ensures AgoOf(ts, parse, now).NotANumber? <==> r == "NaNd ago"
    // otherwise the label reads back as the count followed by the unit's suffix
    ensures AgoOf(ts, parse, now).Ago? ==>
              var a := AgoOf(ts, parse, now);
              var k := |r| - |UnitSuffix(a.unit)|;
              && 0 < k && r[k..] == UnitSuffix(a.unit)
              && AllDigits(r[..k]) && DigitsValue(r[..k]) == a.count
  {
    match AgoOf(ts, parse, now)
    case NotANumber => "NaNd ago"
    case Ago(n, u) =>
      NatToStringValue(n);
      var digits := NatToString(n);
      assert (digits + UnitSuffix(u))[..|digits|] == digits;
      assert (digits + UnitSuffix(u))[0] == digits[0];
      digits + UnitSuffix(u)
  }

  // ---------------------------------------------------------------- tsMillis

  /** The timestamp fields `tsMillis` tries, in order. */
  datatype Stamped = Stamped(createdAt: JsVal, requestedAt: JsVal, created_at: JsVal, createdAtTs: JsVal, created: JsVal)

  /** `tsMillis`: the first present of `createdAt`, `requestedAt`, `created_at`,
      `createdAtTs`, `created`, read as milliseconds. */
  function TsMillis(obj: Stamped, parse: string -> Option<int>): (r: int)
    ensures var t := FirstPresent([obj.createdAt, obj.requestedAt, obj.created_at, obj.createdAtTs, obj.created]);
            r == MillisOf(t, parse)
  {
    MillisOf(FirstPresent([obj.createdAt, obj.requestedAt, obj.created_at, obj.createdAtTs, obj.created]), parse)
  }

  /** A present but empty `createdAt` hides every later field: `??` only skips null. */
  lemma EmptyCreatedAtWins(obj: Stamped, parse: string -> Option<int>)
    requires obj.createdAt == JStr("")
    ensures TsMillis(obj, parse) == 0
  {
  }

  // ---------------------------------------------------------------- booking cards

  /** `roomCode(room)` of the renter dashboard. */
  function RoomCode(room: Option<RoomJson>): string
  {
    RoomCodeOr(room, "ID#—")
  }

  /** `badgeClass(status)`. */
  function BadgeClass(status: string): (r: string)
    ensures r == "bg-yellow-500" <==> status == "PENDING" || status == "PENDING_REQUEST"
    ensures r == "bg-indigo-600" <==> status == "AWAITING_PAYMENT"
    ensures r == "bg-green-600" <==> status == "PAID_CONFIRMED" || status == "CONFIRMED"
    ensures r == "bg-red-600" <==> status == "DECLINED"
    ensures r == "bg-gray-600" <==>
              status == "EXPIRED_UNPAID" || status == "EXPIRED_NO_VISIT" || status == "CANCELLED_AFTER_VIEWING"
    ensures r in {"bg-yellow-500", "bg-indigo-600", "bg-green-600", "bg-red-600", "bg-gray-600", "bg-slate-500"}
  {
    if status == "PENDING" || status == "PENDING_REQUEST" then "bg-yellow-500"
    else if status == "AWAITING_PAYMENT" then "bg-indigo-600"
    else if status == "PAID_CONFIRMED" || status == "CONFIRMED" then "bg-green-600"
    else if status == "DECLINED" then "bg-red-600"
    else if status == "EXPIRED_UNPAID" || status == "EXPIRED_NO_VISIT" then "bg-gray-600"
    else if status == "CANCELLED_AFTER_VIEWING" then "bg-gray-600"
    else "bg-slate-500"
  }

  /** For the booking statuses the server sends, the badge groups waiting-for-provider,
      paid and closed states, and COMPLETED gets the default colour. */
  lemma BadgeGroups(st: Status)
    ensures BadgeClass(StatusName(st)) ==
              match st
              case PendingRequest => "bg-yellow-500"
              case AwaitingPayment => "bg-indigo-600"
              case PaidConfirmed => "bg-green-600"
              case Confirmed => "bg-green-600"
              case Declined => "bg-red-600"
              case ExpiredUnpaid => "bg-gray-600"
              case ExpiredNoVisit => "bg-gray-600"
              case CancelledAfterViewing => "bg-gray-600"
              case Completed => "bg-slate-500"
  {
  }

  /** The cancel button appears only on a request still waiting for the provider (a
      card without a status counts as one). A truthy number status answers here through
      String, where the page's `.toUpperCase()` would throw. */
  predicate CancelShown(status: JsVal)
    ensures !Truthy(status) ==> CancelShown(status)
    ensures Truthy(status) ==> (CancelShown(status) <==> Upper(JsString(status)) == "PENDING_REQUEST")
  {
    UpperFixed("PENDING_REQUEST");
    CardStatus(status) == "PENDING_REQUEST"
  }

  /** For the statuses the server sends, the cancel button shows exactly for
      PENDING_REQUEST. */
  lemma CancelOnlyWhilePending(st: Status)
    ensures CancelShown(JStr(StatusName(st))) <==> st == PendingRequest
  {
    StatusNameUpper(st);
  }

  /** The decision a visit card shows: `(b.decisionStatus || "NONE").toUpperCase()`.
      A truthy number is coerced with String here, where the page's call would throw. */
  function CardDecision(decision: JsVal): string
  {
    Up(Or(decision, JStr("NONE")))
  }

  /** The refund and complete buttons (and the countdown) appear only while no decision
      has been sent. */
  predicate DecisionButtonsShown(decision: JsVal)
    ensures !Truthy(decision) ==> DecisionButtonsShown(decision)
    ensures Truthy(decision) ==> (DecisionButtonsShown(decision) <==> Upper(JsString(decision)) == "NONE")
  {
    UpperFixed("NONE");
    CardDecision(decision) == "NONE"
  }

  /** The chip a decided card shows instead of the buttons. */
  function DecisionChip(decision: JsVal): Option<string>
  {
    var d := CardDecision(decision);
    if d == "NONE" then None
    else if d == "REFUND_REQUESTED" then Some("Refund requested")
    else Some("Completion requested")
  }

  /** For the decisions the server sends, buttons show exactly while it is NONE, and a
      decided card shows the chip that names the decision. */
  lemma DecisionGating(dec: VisitDecision)
    ensures DecisionButtonsShown(JStr(VisitDecisionName(dec))) <==> dec == NoDecision
    ensures DecisionChip(JStr(VisitDecisionName(dec))) ==
              match dec
              case NoDecision => None
              case RefundRequested => Some("Refund requested")
              case CompleteRequested => Some("Completion requested")
  {
    UpperFixed(VisitDecisionName(dec));
  }
}
