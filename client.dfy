/** What the browser pages share: JSON values as JavaScript sees them (truthiness,
    `String(v)`, `||`, `??`), the room-code fallback chain, `truncate`, and the three
    HTML escapers, each shown equal to a single pass that rewrites every character on
    its own. */
module Client {
  import opened Text
  import opened Domain

  // ---------------------------------------------------------------- JSON values

  /** A JSON field as a page reads it: missing, null, a string or a whole number. */
  datatype JsVal = Undefined | Null | JStr(s: string) | JNum(n: int)

  /** JavaScript truthiness: the empty string, 0, null and undefined are false. */
  predicate Truthy(v: JsVal)
  {
    match v
    case JStr(s) => s != []
    case JNum(n) => n != 0
    case _ => false
  }

  /** `v == null`: undefined or null. */
  predicate Nullish(v: JsVal)
  {
    v.Undefined? || v.Null?
  }

  /** `String(v)`. */
  function JsString(v: JsVal): string
  {
    match v
    case Undefined => "undefined"
    case Null => "null"
    case JStr(s) => s
    case JNum(n) => IntToString(n)
  }

  /** `a || b`. */
  function Or(a: JsVal, b: JsVal): JsVal
  {
    if Truthy(a) then a else b
  }

  /** `a ?? b`. */
  function Coalesce(a: JsVal, b: JsVal): JsVal
  {
    if Nullish(a) then b else a
  }

  /** `String(v || "").toUpperCase()`, the `up` helper: falsy values become "". */
  function Up(v: JsVal): (r: string)
    ensures !Truthy(v) ==> r == ""
    ensures Truthy(v) ==> r == Upper(JsString(v))
  {
    Upper(JsString(Or(v, JStr(""))))
  }

  /** The first of the fields that is not null or undefined (`a ?? b ?? …`). */
  function FirstPresent(fields: seq<JsVal>): (v: JsVal)
    ensures !Nullish(v) ==> exists k :: 0 <= k < |fields| && fields[k] == v && forall j :: 0 <= j < k ==> Nullish(fields[j])
    ensures Nullish(v) ==> forall k :: 0 <= k < |fields| ==> Nullish(fields[k])
  {
    if fields == [] then Undefined
    else if !Nullish(fields[0]) then fields[0]
    else
      var v := FirstPresent(fields[1..]);
      if !Nullish(v) then
        var k :| 0 <= k < |fields[1..]| && fields[1..][k] == v && forall j :: 0 <= j < k ==> Nullish(fields[1..][j]);
        assert fields[k + 1] == v;
        v
      else v
  }

  /** A timestamp field read as milliseconds, as `tsMillis` and `stamp` do: a falsy
      value is 0, a number is itself, a string goes through `Date.parse` with NaN read
      as 0. */
  function MillisOf(t: JsVal, parse: string -> Option<int>): (r: int)
    ensures !Truthy(t) ==> r == 0
    ensures t.JNum? ==> r == t.n
    ensures t.JStr? && t.s != [] ==> r == if parse(t.s).Some? then parse(t.s).value else 0
  {
    if !Truthy(t) then 0
    else match t
      case JNum(n) => n
      case JStr(s) => if parse(s).Some? then parse(s).value else 0
      case _ => 0
  }

  /** The status a booking card shows: `(b.status || "PENDING_REQUEST").toUpperCase()`.
      A truthy number is coerced with String here, where the page's call would throw. */
  function CardStatus(status: JsVal): string
  {
    Up(Or(status, JStr("PENDING_REQUEST")))
  }

  // ---------------------------------------------------------------- case

  /** Strings with no lower-case ASCII letter are their own upper case. */
  lemma UpperFixed(s: string)
    requires forall i :: 0 <= i < |s| ==> !('a' <= s[i] <= 'z')
    ensures Upper(s) == s
  {
  }

  lemma UpperIdempotent(s: string)
    ensures Upper(Upper(s)) == Upper(s)
  {
  }

  /** Enum names are already upper case. */
  lemma StatusNameUpper(st: Status)
    ensures Upper(StatusName(st)) == StatusName(st)
  {
    match st
    case PendingRequest => UpperFixed("PENDING_REQUEST");
    case Declined => UpperFixed("DECLINED");
    case AwaitingPayment => UpperFixed("AWAITING_PAYMENT");
    case Confirmed => UpperFixed("CONFIRMED");
    case PaidConfirmed => UpperFixed("PAID_CONFIRMED");
    case Completed => UpperFixed("COMPLETED");
    case CancelledAfterViewing => UpperFixed("CANCELLED_AFTER_VIEWING");
    case ExpiredUnpaid => UpperFixed("EXPIRED_UNPAID");
    case ExpiredNoVisit => UpperFixed("EXPIRED_NO_VISIT");
  }

  // ---------------------------------------------------------------- rooms

  /** The room fields the pages look at. */
  datatype RoomJson = RoomJson(publicCode: JsVal, code: JsVal, roomCode: JsVal, id: JsVal)

  /** The room-code fallback chain of the pages: the first truthy of `publicCode`, `code`,
      `roomCode`, then "ID#" and the id when it is not null, then `last`. A missing
      room (`room?.` or `b.room || {}`) goes straight to `last`. */
  function RoomCodeOr(room: Option<RoomJson>, last: string): (r: string)
    ensures room.None? ==> r == last
    ensures room.Some? && Truthy(room.value.publicCode) ==> r == JsString(room.value.publicCode)
    ensures room.Some? && !Truthy(room.value.publicCode) && Truthy(room.value.code) ==>
              r == JsString(room.value.code)
    ensures room.Some? && !Truthy(room.value.publicCode) && !Truthy(room.value.code)
              && Truthy(room.value.roomCode) ==>
              r == JsString(room.value.roomCode)
    ensures room.Some? && !Truthy(room.value.publicCode) && !Truthy(room.value.code)
              && !Truthy(room.value.roomCode) ==>
              r == (if Nullish(room.value.id) then last else "ID#" + JsString(room.value.id))
  {
    match room
    case None => last
    case Some(rm) =>
      if Truthy(rm.publicCode) then JsString(rm.publicCode)
      else if Truthy(rm.code) then JsString(rm.code)
      else if Truthy(rm.roomCode) then JsString(rm.roomCode)
      else if !Nullish(rm.id) then "ID#" + JsString(rm.id)
      else last
  }

  /** A room as the server serialises it: `publicCode` is `getPublicCode()`. */
  function ServerRoom(id: nat): RoomJson
  {
    RoomJson(JStr(PublicCode(Some(id))), Undefined, Undefined, JNum(id))
  }

  /** For a room the server sent, every fallback chain shows the server's public code. */
  lemma ServerRoomCode(id: nat, last: string)
    ensures RoomCodeOr(Some(ServerRoom(id)), last) == PublicCode(Some(id))
  {
    PublicCodeDigits(id);
  }

  /** The pages' chains differ only in their last resort: two fallbacks give the same code
      unless the room has no code and no id, and then each gives its own fallback. */
  lemma RoomCodeOrLastResort(room: Option<RoomJson>, a: string, b: string)
    ensures RoomCodeOr(room, a) == RoomCodeOr(room, b) ||
              (RoomCodeOr(room, a) == a && RoomCodeOr(room, b) == b)
    ensures RoomCodeOr(room, a) != a ==> RoomCodeOr(room, a) == RoomCodeOr(room, b)
  {
  }

  // ---------------------------------------------------------------- truncate

  /** `truncate(s, n)` of the payments page: `s` when it fits, otherwise its first `n`
      characters and an ellipsis. */
  function Truncate(s: string, n: nat): (r: string)
    ensures |r| <= n + 1 && |r| <= |s| + 1
    ensures |s| <= n ==> r == s
    ensures |s| > n ==> |r| == n + 1 && r[..n] == s[..n] && r[n] == '…'
  {
    if |s| > n then s[..n] + "…" else s
  }

  // ---------------------------------------------------------------- escaping

  /** Rewrites that agree on every character agree on every string. */
  lemma {:induction false} MapCharsExt(s: string, f: char -> string, g: char -> string)
    requires forall x :: f(x) == g(x)
    ensures MapChars(s, f) == MapChars(s, g)
    decreases |s|
  {
    if s != [] {
      MapCharsExt(s[1..], f, g);
    }
  }

  /** One more `replace(/c/g, rep)` pass after a per-character rewrite `f` that has not
      touched `c`, and produces only `c`-free pieces for the characters it does rewrite,
      is the per-character rewrite `g` that sends `c` to `rep` and the rest through `f`. */
  lemma {:induction false} PassStep(s: string, f: char -> string, c: char, rep: string, g: char -> string)
    requires f(c) == [c]
    requires forall x :: f(x) == [x] || c !in f(x)
    requires forall x :: g(x) == if x == c then rep else f(x)
    ensures ReplaceAll(MapChars(s, f), c, rep) == MapChars(s, g)
    decreases |s|
  {
    if s != [] {
      PassStep(s[1..], f, c, rep, g);
      MapCharsAppend(f(s[0]), MapChars(s[1..], f), Replacing(c, rep));
      if f(s[0]) == [s[0]] {
        MapCharsSingle(s[0], Replacing(c, rep));
      } else {
        ReplaceAbsent(f(s[0]), c, rep);
      }
    }
  }

  function EscapeAmp(c: char): string
  {
    if c == '&' then "&amp;" else [c]
  }

  function EscapeAmpLt(c: char): string
  {
    if c == '<' then "&lt;" else EscapeAmp(c)
  }

  /** The single pass behind `escapeHtml` of the renter dashboard. */
  function EscapeAmpLtGt(c: char): string
  {
    if c == '>' then "&gt;" else EscapeAmpLt(c)
  }

  /** The renter dashboard's `escapeHtml`: `&`, then `<`, then `>`. The three passes
      are one pass over the input: every `&` of the input, and only those, becomes
      "&amp;", and no `<` or `>` is left. */
  function RenterEscape(s: string): (r: string)
    ensures r == MapChars(s, EscapeAmpLtGt)
    ensures '<' !in r && '>' !in r
  {
    EscapeAmpPass(s);
    LtPass(s);
    GtPass(s);
    AmpLtGtAvoids(s);
    ReplaceAll(ReplaceAll(ReplaceAll(s, '&', "&amp;"), '<', "&lt;"), '>', "&gt;")
  }

  lemma EscapeAmpPass(s: string)
    ensures ReplaceAll(s, '&', "&amp;") == MapChars(s, EscapeAmp)
  {
    MapCharsExt(s, Replacing('&', "&amp;"), EscapeAmp);
  }

  /** The `<` pass after the `&` pass. */
  lemma LtPass(s: string)
    ensures ReplaceAll(MapChars(s, EscapeAmp), '<', "&lt;") == MapChars(s, EscapeAmpLt)
  {
    forall x ensures EscapeAmp(x) == [x] || '<' !in EscapeAmp(x) {
      if x == '&' {
        assert EscapeAmp(x) == "&amp;";
      }
    }
    PassStep(s, EscapeAmp, '<', "&lt;", EscapeAmpLt);
  }

  /** The `>` pass after the `&` and `<` passes. */
  lemma GtPass(s: string)
    ensures ReplaceAll(MapChars(s, EscapeAmpLt), '>', "&gt;") == MapChars(s, EscapeAmpLtGt)
  {
    forall x ensures EscapeAmpLt(x) == [x] || '>' !in EscapeAmpLt(x) {
      if x == '<' {
        assert EscapeAmpLt(x) == "&lt;";
      } else if x == '&' {
        assert EscapeAmpLt(x) == "&amp;";
      }
    }
    PassStep(s, EscapeAmpLt, '>', "&gt;", EscapeAmpLtGt);
  }

  /** No character comes out of the renter pass as `<` or `>`. */
  lemma AmpLtGtAvoids(s: string)
    ensures '<' !in MapChars(s, EscapeAmpLtGt) && '>' !in MapChars(s, EscapeAmpLtGt)
  {
    forall x ensures '<' !in EscapeAmpLtGt(x) && '>' !in EscapeAmpLtGt(x) {
      if x == '>' {
        assert EscapeAmpLtGt(x) == "&gt;";
      } else if x == '<' {
        assert EscapeAmpLtGt(x) == "&lt;";
      } else if x == '&' {
        assert EscapeAmpLtGt(x) == "&amp;";
      } else {
        assert EscapeAmpLtGt(x) == [x];
      }
    }
    MapCharsAvoids(s, EscapeAmpLtGt, '<');
    MapCharsAvoids(s, EscapeAmpLtGt, '>');
  }

  function EscapeFour(c: char): string
  {
    if c == '"' then "&quot;" else EscapeAmpLtGt(c)
  }

  /** The single pass behind `esc` of the payments page. */
  function EscapeFive(c: char): string
  {
    if c == '\'' then "&#039;" else EscapeFour(c)
  }

  /** The payments page's `esc`: `&`, `<`, `>`, `"`, then `'`. The five passes are one
      pass, and none of `< > " '` survives. */
  function PaymentsEscape(s: string): (r: string)
    ensures r == MapChars(s, EscapeFive)
    ensures '<' !in r && '>' !in r && '"' !in r && '\'' !in r
  {
    QuotPass(s);
    AposPass(s);
    EscapeFiveAvoids(s);
    ReplaceAll(ReplaceAll(RenterEscape(s), '"', "&quot;"), '\'', "&#039;")
  }

  /** The `"` pass after the renter passes. */
  lemma QuotPass(s: string)
    ensures ReplaceAll(MapChars(s, EscapeAmpLtGt), '"', "&quot;") == MapChars(s, EscapeFour)
  {
    forall x ensures EscapeAmpLtGt(x) == [x] || '"' !in EscapeAmpLtGt(x) {
      if x == '>' {
        assert EscapeAmpLtGt(x) == "&gt;";
      } else if x == '<' {
        assert EscapeAmpLtGt(x) == "&lt;";
      } else if x == '&' {
        assert EscapeAmpLtGt(x) == "&amp;";
      }
    }
    PassStep(s, EscapeAmpLtGt, '"', "&quot;", EscapeFour);
  }

  /** The `'` pass after the other four. */
  lemma AposPass(s: string)
    ensures ReplaceAll(MapChars(s, EscapeFour), '\'', "&#039;") == MapChars(s, EscapeFive)
  {
    forall x ensures EscapeFour(x) == [x] || '\'' !in EscapeFour(x) {
      if x == '"' {
        assert EscapeFour(x) == "&quot;";
      } else if x == '>' {
        assert EscapeFour(x) == "&gt;";
      } else if x == '<' {
        assert EscapeFour(x) == "&lt;";
      } else if x == '&' {
        assert EscapeFour(x) == "&amp;";
      }
    }
    PassStep(s, EscapeFour, '\'', "&#039;", EscapeFive);
  }

  /** The pieces of the payments pass hold none of `< > " '`. */
  lemma EscapeFiveChars(x: char)
    ensures '<' !in EscapeFive(x) && '>' !in EscapeFive(x)
    ensures '"' !in EscapeFive(x) && '\'' !in EscapeFive(x)
  {
    if x == '\'' {
      assert EscapeFive(x) == "&#039;";
    } else if x == '"' {
      assert EscapeFive(x) == "&quot;";
    } else if x == '>' {
      assert EscapeFive(x) == "&gt;";
    } else if x == '<' {
      assert EscapeFive(x) == "&lt;";
    } else if x == '&' {
      assert EscapeFive(x) == "&amp;";
    } else {
      assert EscapeFive(x) == [x];
    }
  }

  lemma EscapeFiveAvoids(s: string)
    ensures '<' !in MapChars(s, EscapeFive) && '>' !in MapChars(s, EscapeFive)
    ensures '"' !in MapChars(s, EscapeFive) && '\'' !in MapChars(s, EscapeFive)
  {
    forall x ensures '<' !in EscapeFive(x) && '>' !in EscapeFive(x) &&
                     '"' !in EscapeFive(x) && '\'' !in EscapeFive(x) {
      EscapeFiveChars(x);
    }
    MapCharsAvoids(s, EscapeFive, '<');
    MapCharsAvoids(s, EscapeFive, '>');
    MapCharsAvoids(s, EscapeFive, '"');
    MapCharsAvoids(s, EscapeFive, '\'');
  }

  /** The per-character table of the admin dashboard's `escapeHtml`. */
  function EscapeTable(c: char): string
  {
    if c == '&' then "&amp;" else if c == '<' then "&lt;" else if c == '>' then "&gt;"
    else if c == '"' then "&quot;" else if c == '\'' then "&#39;" else [c]
  }

  /** The admin dashboard's `escapeHtml`: null and undefined become "", everything
      else goes through `String` and the table in a single pass. */
  function DashboardEscape(v: JsVal): (r: string)
    ensures Nullish(v) ==> r == ""
    ensures '<' !in r && '>' !in r && '"' !in r && '\'' !in r
  {
    var s := if Nullish(v) then "" else JsString(v);
    MapCharsAvoids(s, EscapeTable, '<');
    MapCharsAvoids(s, EscapeTable, '>');
    MapCharsAvoids(s, EscapeTable, '"');
    MapCharsAvoids(s, EscapeTable, '\'');
    MapChars(s, EscapeTable)
  }

  /** Escaping text piece by piece gives the escape of the whole text. */
  lemma DashboardEscapeAppend(a: string, b: string)
    ensures DashboardEscape(JStr(a + b)) == DashboardEscape(JStr(a)) + DashboardEscape(JStr(b))
  {
    MapCharsAppend(a, b, EscapeTable);
  }

  /** Each character of the text becomes its entity, or stays as it is. */
  lemma DashboardEscapeChar(c: char)
    ensures c == '&' ==> DashboardEscape(JStr([c])) == "&amp;"
    ensures c == '<' ==> DashboardEscape(JStr([c])) == "&lt;"
    ensures c == '>' ==> DashboardEscape(JStr([c])) == "&gt;"
    ensures c == '"' ==> DashboardEscape(JStr([c])) == "&quot;"
    ensures c == '\'' ==> DashboardEscape(JStr([c])) == "&#39;"
    ensures c !in "&<>\"'" ==> DashboardEscape(JStr([c])) == [c]
  {
    MapCharsSingle(c, EscapeTable);
  }

  /** The admin dashboard's `escapeAttr`: `escapeHtml` and then `"` to "&quot;". The
      extra pass finds nothing to do, so it is `escapeHtml` itself. */
  function DashboardEscapeAttr(v: JsVal): (r: string)
    ensures r == DashboardEscape(v)
  {
    ReplaceAbsent(DashboardEscape(v), '"', "&quot;");
    ReplaceAll(DashboardEscape(v), '"', "&quot;")
  }

  /** The two admin escapers differ only in how `'` is written. */
  lemma EscapersDiffer()
    ensures PaymentsEscape("'") == "&#039;" && DashboardEscape(JStr("'")) == "&#39;"
  {
    MapCharsSingle('\'', EscapeFive);
    assert "'" == ['\''];
    MapCharsSingle('\'', EscapeTable);
  }
}
