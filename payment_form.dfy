/** The deposit page: its globals (booking id, amount, room code, captcha operands), the
    `init` guard that hides the form, the captcha, and `onSubmit`'s checks and the
    reference it sends. URL parsing, the booking fetch and the random draws arrive as
    parameters; a URL number that is NaN is passed as 0, which every branch treats
    alike (both are falsy). */
module PaymentForm {
  import opened Text
  import opened Domain
  import opened Client

  /** A message written to the status line, green or red. */
  datatype StatusLine = StatusLine(msg: string, ok: bool)

  /** The fields `pay-escrow` is posted with. */
  datatype PayEscrowBody = PayEscrowBody(
    amount: string, payMethod: string, reference: string,
    payerName: string, payerPhone: string, txnId: string, note: string)

  /** What a submit does: stop with a red message, or post the body. */
  datatype Submission = Rejected(msg: string) | Post(bookingId: int, body: PayEscrowBody)

  /** The payment reference: "TXN:" + txnId + "|ROOM:" + room code + "|BK:" + booking id. */
  function Reference(txnId: string, roomCode: string, bookingId: string): string
  {
    "TXN:" + txnId + "|ROOM:" + roomCode + "|BK:" + bookingId
  }

  /** Each field of a reference reads back from its place between the fixed labels. */
  lemma ReferenceFields(txnId: string, roomCode: string, bookingId: string)
    ensures var r := Reference(txnId, roomCode, bookingId);
            var k := 4 + |txnId|; var m := k + 6 + |roomCode|;
            && |r| == m + 4 + |bookingId|
            && r[..4] == "TXN:" && r[4..k] == txnId
            && r[k..k + 6] == "|ROOM:" && r[k + 6..m] == roomCode
            && r[m..m + 4] == "|BK:" && r[m + 4..] == bookingId
  {
  }

  class PaymentPage {
    var bookingId: int
    var amount: int
    var roomCodeValue: string
    var captchaX: int
    var captchaY: int
    var formHidden: bool
    /** Whether `init` got as far as attaching the submit handler. */
    var ready: bool
    var status: Option<StatusLine>

    ghost predicate Valid()
      reads this
    {
      ready ==> bookingId != 0 && amount != 0 && 1 <= captchaX <= 9 && 1 <= captchaY <= 9
    }

    /** The page as loaded: `roomCodeValue` starts as "-". */
    constructor()
      ensures Valid() && !ready && !formHidden && roomCodeValue == "-" && status.None?
    {
      bookingId, amount := 0, 0;
      roomCodeValue := "-";
      captchaX, captchaY := 0, 0;
      formHidden, ready := false, false;
      status := None;
    }

    /** `generateCaptcha`: each operand is `Math.floor(Math.random() * 9) + 1`. */
    method GenerateCaptcha(drawX: nat, drawY: nat)
      requires drawX < 9 && drawY < 9
      modifies this
      ensures captchaX == drawX + 1 && captchaY == drawY + 1
      ensures 1 <= captchaX <= 9 && 1 <= captchaY <= 9
      ensures bookingId == old(bookingId) && amount == old(amount) && roomCodeValue == old(roomCodeValue)
      ensures formHidden == old(formHidden) && ready == old(ready) && status == old(status)
    {
      captchaX := drawX + 1;
      captchaY := drawY + 1;
    }

    /** `init`: a missing or zero booking id or amount hides the form with a red message;
        otherwise the room code comes from the fetched booking (`None` when the fetch
        failed, leaving "-"), a captcha is drawn and the submit handler attached. */
    method Init(bookingParam: int, amountParam: int, booking: Option<Option<RoomJson>>, drawX: nat, drawY: nat)
      requires Valid() && drawX < 9 && drawY < 9
      modifies this
      ensures Valid()
      ensures bookingId == bookingParam && amount == amountParam
      ensures bookingParam == 0 || amountParam == 0 ==>
                && formHidden && !ready && status == Some(StatusLine("Invalid booking or amount.", false))
                && roomCodeValue == old(roomCodeValue)
      ensures bookingParam != 0 && amountParam != 0 ==>
                && ready && formHidden == old(formHidden) && status == old(status)
                && roomCodeValue == (if booking.Some? then RoomCodeOr(booking.value, "-") else old(roomCodeValue))
                && captchaX == drawX + 1 && captchaY == drawY + 1
    {
      bookingId := bookingParam;
      amount := amountParam;
      if bookingId == 0 || amount == 0 {
        status := Some(StatusLine("Invalid booking or amount.", false));
        formHidden := true;
        ready := false;
        return;
      }
      if booking.Some? {
        roomCodeValue := RoomCodeOr(booking.value, "-");
      }
      GenerateCaptcha(drawX, drawY);
      ready := true;
    }

    /** `onSubmit`: method, name, phone, transaction id and captcha are checked in that
        order and the first failure is reported; the trimmed fields and the reference are
        posted otherwise. `payMethod` is the checked radio's value (`None` when none is
        checked; an empty value is falsy too). `captcha` is `Number(answer || 0)`, `None`
        when that is NaN. */
    function OnSubmit(payMethod: Option<string>, payerName: string, payerPhone: string, txnId: string,
                      note: string, captcha: Option<int>): (r: Submission)
      reads this
      requires ready
      ensures payMethod.None? || payMethod == Some([]) ==> r == Rejected("Please select a payment method.")
      ensures payMethod.Some? && payMethod.value != [] && JsTrim(payerName) == [] ==>
                r == Rejected("Please enter your name.")
      ensures payMethod.Some? && payMethod.value != [] && JsTrim(payerName) != []
                && JsTrim(payerPhone) == [] ==>
                r == Rejected("Please enter your phone.")
      ensures payMethod.Some? && payMethod.value != [] && JsTrim(payerName) != []
                && JsTrim(payerPhone) != [] && JsTrim(txnId) == [] ==>
                r == Rejected("Please enter the Transaction ID.")
      ensures payMethod.Some? && payMethod.value != [] && JsTrim(payerName) != []
                && JsTrim(payerPhone) != [] && JsTrim(txnId) != [] && captcha != Some(captchaX + captchaY) ==>
                r == Rejected("Captcha failed.")
      ensures r.Post? <==>
                && payMethod.Some? && payMethod.value != [] && JsTrim(payerName) != [] && JsTrim(payerPhone) != []
                && JsTrim(txnId) != [] && captcha == Some(captchaX + captchaY)
      ensures r.Post? ==>
                && r.bookingId == bookingId
                && r.body == PayEscrowBody(IntToString(amount), payMethod.value,
                                           Reference(JsTrim(txnId), roomCodeValue, IntToString(bookingId)),
                                           JsTrim(payerName), JsTrim(payerPhone), JsTrim(txnId), JsTrim(note))
    {
      var name := JsTrim(payerName);
      var phone := JsTrim(payerPhone);
      var txn := JsTrim(txnId);
      if payMethod.None? || payMethod.value == [] then Rejected("Please select a payment method.")
      else if name == [] then Rejected("Please enter your name.")
      else if phone == [] then Rejected("Please enter your phone.")
      else if txn == [] then Rejected("Please enter the Transaction ID.")
      else if captcha != Some(captchaX + captchaY) then Rejected("Captcha failed.")
      else Post(bookingId, PayEscrowBody(IntToString(amount), payMethod.value,
                                         Reference(txn, roomCodeValue, IntToString(bookingId)),
                                         name, phone, txn, JsTrim(note)))
    }
  }

  /** The captcha accepts exactly the sums 2..18, one for each pair of operands. */
  lemma CaptchaRange(page: PaymentPage, answer: int)
    requires page.Valid() && page.ready
    ensures page.OnSubmit(Some("BKASH"), "a", "b", "c", "", Some(answer)).Post? <==>
              answer == page.captchaX + page.captchaY
    ensures 2 <= page.captchaX + page.captchaY <= 18
  {
    assert JsTrim("a") == "a" && JsTrim("b") == "b" && JsTrim("c") == "c";
  }
}
