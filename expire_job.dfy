/** `EscrowExpireJob`: the scheduled tick that runs the unpaid sweep and then the
    no-visit sweep of the booking service, and logs a line when either expired something. */
module ExpireJob {
  import opened Text
  import opened Domain
  import opened EscrowSpec
  import opened Escrow
  import opened EscrowProperties

  /** The log line of the 15-minute tick, with slf4j's `{}` placeholders filled in. */
  function TickLine(a: nat, b: nat): (r: string)
    ensures CountsAt(r, "EscrowExpireJob: expired ", " no-visit bookings.", a, b)
  {
    CountsLine("EscrowExpireJob: expired ", " unpaid + ", " no-visit bookings.", a, b)
  }

  /** The log line of the development variant. */
  function DevTickLine(a: nat, b: nat): (r: string)
    ensures CountsAt(r, "[DEV] expired ", " no-visit.", a, b)
  {
    CountsLine("[DEV] expired ", " unpaid + ", " no-visit.", a, b)
  }

  /** The line starts with `p` and ends with `e`; the first count's digits follow `p`
      and the second count's digits precede `e`. */
  predicate CountsAt(r: string, p: string, e: string, a: nat, b: nat)
  {
    && StartsWith(r, p) && |p| + |e| <= |r| && r[|r| - |e|..] == e
    && DigitsAt(r, |p|, |p| + |NatToString(a)|, a)
    && |NatToString(b)| <= |r| - |e|
    && DigitsAt(r, |r| - |e| - |NatToString(b)|, |r| - |e|, b)
  }

  /** `p + a + m + b + e`, with the counts in decimal. */
  function CountsLine(p: string, m: string, e: string, a: nat, b: nat): (r: string)
    ensures CountsAt(r, p, e, a, b)
  {
    var x, y := NatToString(a), NatToString(b);
    var r := p + x + m + y + e;
    NatToStringValue(a);
    NatToStringValue(b);
    assert r[..|p|] == p;
    assert r[|p|..|p| + |x|] == x;
    assert r[|r| - |e|..] == e;
    assert r[|r| - |e| - |y|..|r| - |e|] == y;
    r
  }

  /** `if (a > 0 || b > 0) log.info(...)`: the line, or nothing. */
  function LogIfAny(a: nat, b: nat, line: string): (log: Option<string>)
    ensures log.Some? <==> a > 0 || b > 0
    ensures log.Some? ==> log.value == line
  {
    if a > 0 || b > 0 then Some(line) else None
  }

  /** Splits `prefix + digits + rest` into its parts. */
  lemma CountAfterPrefix(prefix: string, a: nat, rest: string, b: nat, rest2: string)
    requires rest != [] && !IsDigit(rest[0]) && rest2 != [] && !IsDigit(rest2[0])
    requires prefix + NatToString(a) + rest == prefix + NatToString(b) + rest2
    ensures a == b && rest == rest2
  {
    var l := prefix + NatToString(a) + rest;
    var r := prefix + NatToString(b) + rest2;
    assert l[|prefix|..] == NatToString(a) + rest;
    assert r[|prefix|..] == NatToString(b) + rest2;
    DigitRunSplit(NatToString(a), rest, NatToString(b), rest2);
    NatToStringInjective(a, b);
  }

  /** Regrouping `p + x + m + y + e` so that the text after the first count is one piece. */
  lemma Regroup(p: string, x: string, m: string, y: string, e: string)
    ensures p + x + m + y + e == p + x + (m + y + e)
  {
  }

  /** A line of the form `p + count + m + count + e` gives back both counts. */
  lemma TwoCountsInjective(p: string, m: string, e: string, a: nat, b: nat, a2: nat, b2: nat)
    requires m != [] && !IsDigit(m[0]) && e != [] && !IsDigit(e[0])
    requires p + NatToString(a) + m + NatToString(b) + e == p + NatToString(a2) + m + NatToString(b2) + e
    ensures a == a2 && b == b2
  {
    var x, y, x2, y2 := NatToString(a), NatToString(b), NatToString(a2), NatToString(b2);
    Regroup(p, x, m, y, e);
    Regroup(p, x2, m, y2, e);
    assert (m + y + e)[0] == m[0];
    assert (m + y2 + e)[0] == m[0];
    CountAfterPrefix(p, a, m + y + e, a2, m + y2 + e);
    CountAfterPrefix(m, b, e, b2, e);
  }

  /** The tick's log line gives back both counts. */
  lemma TickLineInjective(a: nat, b: nat, a2: nat, b2: nat)
    requires TickLine(a, b) == TickLine(a2, b2)
    ensures a == a2 && b == b2
  {
    TwoCountsInjective("EscrowExpireJob: expired ", " unpaid + ", " no-visit bookings.", a, b, a2, b2);
  }

  /** The same for the development line. */
  lemma DevTickLineInjective(a: nat, b: nat, a2: nat, b2: nat)
    requires DevTickLine(a, b) == DevTickLine(a2, b2)
    ensures a == a2 && b == b2
  {
    TwoCountsInjective("[DEV] expired ", " unpaid + ", " no-visit.", a, b, a2, b2);
  }

  class EscrowExpireJob {
    const bookingService: EscrowStore

    constructor (bookingService: EscrowStore)
      ensures this.bookingService == bookingService
    {
      this.bookingService := bookingService;
    }

    /** One 15-minute tick. Each sweep reads the clock itself: `unpaidNow` for the unpaid
        sweep, `noVisitNow` for the no-visit sweep that runs after it. */
    method SweepEvery15Minutes(unpaidNow: int, noVisitNow: int) returns (log: Option<string>)
      requires bookingService.Valid()
      modifies bookingService
      ensures bookingService.Valid()
      ensures var b0 := old(bookingService.bookings);
              var unpaid := UnpaidExpired(b0, old(bookingService.payments), unpaidNow);
              var noVisit := NoVisitDue(b0, noVisitNow);
              var b1 := WithStatus(b0, unpaid, ExpiredUnpaid);
              && unpaid * noVisit == {}
              && bookingService.bookings == WithStatus(b1, noVisit, ExpiredNoVisit)
              && bookingService.rooms == WithAvailability(
                   WithAvailability(old(bookingService.rooms), RoomsOf(b0, unpaid), true), RoomsOf(b1, noVisit), true)
              && log == LogIfAny(|unpaid|, |noVisit|, TickLine(|unpaid|, |noVisit|))
      ensures bookingService.users == old(bookingService.users) && bookingService.payments == old(bookingService.payments)
      ensures bookingService.payouts == old(bookingService.payouts)
      ensures bookingService.nextBookingId == old(bookingService.nextBookingId)
    {
      UnpaidSweepKeepsNoVisitDue(bookingService.bookings, bookingService.payments, unpaidNow, noVisitNow);
      var a := bookingService.ExpireUnpaid(unpaidNow);
      var b := bookingService.ExpireNoVisit(noVisitNow);
      log := LogIfAny(a, b, TickLine(a, b));
    }

    /** The development tick: the same two sweeps in the same order, another log line. */
    method SweepEveryMinuteForLocalDev(unpaidNow: int, noVisitNow: int) returns (log: Option<string>)
      requires bookingService.Valid()
      modifies bookingService
      ensures bookingService.Valid()
      ensures var b0 := old(bookingService.bookings);
              var unpaid := UnpaidExpired(b0, old(bookingService.payments), unpaidNow);
              var noVisit := NoVisitDue(b0, noVisitNow);
              var b1 := WithStatus(b0, unpaid, ExpiredUnpaid);
              && unpaid * noVisit == {}
              && bookingService.bookings == WithStatus(b1, noVisit, ExpiredNoVisit)
              && bookingService.rooms == WithAvailability(
                   WithAvailability(old(bookingService.rooms), RoomsOf(b0, unpaid), true), RoomsOf(b1, noVisit), true)
              && log == LogIfAny(|unpaid|, |noVisit|, DevTickLine(|unpaid|, |noVisit|))
      ensures bookingService.users == old(bookingService.users) && bookingService.payments == old(bookingService.payments)
      ensures bookingService.payouts == old(bookingService.payouts)
      ensures bookingService.nextBookingId == old(bookingService.nextBookingId)
    {
      UnpaidSweepKeepsNoVisitDue(bookingService.bookings, bookingService.payments, unpaidNow, noVisitNow);
      var a := bookingService.ExpireUnpaid(unpaidNow);
      var b := bookingService.ExpireNoVisit(noVisitNow);
      log := LogIfAny(a, b, DevTickLine(a, b));
    }
  }
}
