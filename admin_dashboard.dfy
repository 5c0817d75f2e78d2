/** The admin dashboard: which users get a delete button, the booking-card badge and
    room code, and the "View 25%" link to the deposit page with the deposit it carries.
    The escapers it uses are `Client.DashboardEscape` and `Client.DashboardEscapeAttr`. */
module AdminDashboard {
  import opened Text
  import opened Domain
  import opened Client
  import opened Accounts
  import RenterDashboard
  import PaymentForm

  /** A user of `GET /api/admin/users`, as far as the page reads one. */
  datatype UserJson = UserJson(id: JsVal, role: JsVal)

  /** The control at the end of a user row. */
  datatype DeleteControl = LockedAdmin | DeleteButton(userId: string)

  /** A user row's control: `u.role === 'ADMIN'` (exact) is locked. */
  function DeleteControlFor(u: UserJson): (r: DeleteControl)
    ensures r == LockedAdmin <==> u.role == JStr("ADMIN")
  {
    if u.role == JStr("ADMIN") then LockedAdmin else DeleteButton(JsString(u.id))
  }

  /** `users.filter(u => u.role === role)`. */
  function WithRole(users: seq<UserJson>, role: string): (r: seq<UserJson>)
    ensures |r| <= |users|
    ensures forall u :: u in r <==> u in users && u.role == JStr(role)
  {
    if users == [] then []
    else (if users[0].role == JStr(role) then [users[0]] else []) + WithRole(users[1..], role)
  }

  /** The filter distributes over concatenation: it keeps the users' order and repeats. */
  lemma {:induction false} WithRoleAppend(a: seq<UserJson>, b: seq<UserJson>, role: string)
    ensures WithRole(a + b, role) == WithRole(a, role) + WithRole(b, role)
    decreases |a|
  {
    if a == [] {
      assert a + b == b;
    } else {
      assert (a + b)[0] == a[0];
      assert (a + b)[1..] == a[1..] + b;
      WithRoleAppend(a[1..], b, role);
    }
  }

  /** On one user the filter keeps it exactly when its role is `role` (strictly equal). */
  lemma WithRoleSingle(u: UserJson, role: string)
    ensures WithRole([u], role) == if u.role == JStr(role) then [u] else []
  {
  }

  /** The two lists the page renders: renters and providers. */
  function RenderedUsers(users: seq<UserJson>): seq<UserJson>
  {
    WithRole(users, "RENTER") + WithRole(users, "PROVIDER")
  }

  /** Every rendered row gets a delete button: the locked admin control is never reached,
      because admins are filtered out before rendering. On a role the server sends, the
      lock would fall exactly on admins. */
  lemma LockedAdminNeverRendered(users: seq<UserJson>, role: Role, id: JsVal)
    ensures forall u :: u in RenderedUsers(users) ==> DeleteControlFor(u).DeleteButton?
    ensures DeleteControlFor(UserJson(id, JStr(RoleName(role)))) == LockedAdmin <==> role == Admin
  {
    forall u | u in RenderedUsers(users)
      ensures DeleteControlFor(u).DeleteButton?
    {
      assert u in WithRole(users, "RENTER") || u in WithRole(users, "PROVIDER");
    }
  }

  /** `badgeClass`: `(status || "").toUpperCase()` matched against the server's names.
      A truthy number is coerced with String here, where the page's call would throw. */
  function BadgeClass(status: JsVal): (r: string)
    ensures !Truthy(status) ==> r == "bg-slate-500"
    ensures r == "bg-yellow-500" <==> Up(status) == "PENDING_REQUEST"
    ensures r == "bg-indigo-600" <==> Up(status) == "AWAITING_PAYMENT"
    ensures r == "bg-green-600" <==> Up(status) == "PAID_CONFIRMED" || Up(status) == "CONFIRMED"
    ensures r == "bg-red-600" <==> Up(status) == "DECLINED"
    ensures r == "bg-gray-600" <==>
              Up(status) == "EXPIRED_UNPAID" || Up(status) == "EXPIRED_NO_VISIT" || Up(status) == "CANCELLED_AFTER_VIEWING"
  {
    match Up(status)
    case "PENDING_REQUEST" => "bg-yellow-500"
    case "AWAITING_PAYMENT" => "bg-indigo-600"
    case "PAID_CONFIRMED" => "bg-green-600"
    case "CONFIRMED" => "bg-green-600"
    case "DECLINED" => "bg-red-600"
    case "EXPIRED_UNPAID" => "bg-gray-600"
    case "EXPIRED_NO_VISIT" => "bg-gray-600"
    case "CANCELLED_AFTER_VIEWING" => "bg-gray-600"
    case _ => "bg-slate-500"
  }

  /** The badge ignores letter case. */
  lemma BadgeIgnoresCase(a: string, b: string)
    requires EqualsIgnoreCase(a, b)
    ensures BadgeClass(JStr(a)) == BadgeClass(JStr(b))
  {
    assert |a| == |Upper(a)| == |Upper(b)| == |b|;
  }

  /** On every status the server sends, the admin badge is the renter page's badge. */
  lemma BadgeAgreesWithRenterPage(st: Status)
    ensures BadgeClass(JStr(StatusName(st))) == RenterDashboard.BadgeClass(StatusName(st))
  {
    StatusNameUpper(st);
  }

  /** `roomCode`: the shared chain with "—" as the last resort. */
  function RoomCode(room: Option<RoomJson>): (r: string)
    ensures r != []
    // the last resort: no room, or a room with no code field set and a nullish id
    ensures room.None? ==> r == "—"
    ensures room.Some? && !Truthy(room.value.publicCode) && !Truthy(room.value.code)
              && !Truthy(room.value.roomCode) && Nullish(room.value.id) ==>
              r == "—"
    // before it, the shared chain, which does not depend on the last resort
    ensures r != "—" ==> forall last :: r == RoomCodeOr(room, last)
  {
    RoomCodeOr(room, "—")
  }

  /** The admin and renter pages show the same code for every room that has a code or an id. */
  lemma RoomCodeAgreesWithRenterPage(room: Option<RoomJson>)
    ensures RoomCode(room) == RenterDashboard.RoomCode(room) ||
              (RoomCode(room) == "—" && RenterDashboard.RoomCode(room) == "ID#—")
  {
    RoomCodeOrLastResort(room, "—", "ID#—");
  }

  /** `Math.round((r.rent || 0) * 0.25)` for a whole-number rent: the nearest integer to a
      quarter of the rent, halves rounded up. */
  function Deposit(rent: Option<int>): (d: int)
    ensures rent.None? ==> d == 0
    ensures rent.Some? ==> 4 * d - 2 <= rent.value < 4 * d + 2
  {
    if rent.Some? then (rent.value + 2) / 4 else 0
  }

  /** The deposit is zero exactly for rents from -2 to 1 (or no rent). */
  lemma DepositZero(rent: Option<int>)
    ensures Deposit(rent) == 0 <==> rent.None? || -2 <= rent.value <= 1
  {
  }

  /** The "View 25%" link: shown only when the card status is AWAITING_PAYMENT, it carries
      the booking id and the deposit. A truthy number status goes through String here,
      where the page's `.toUpperCase()` would throw. */
  datatype DepositLink = NoLink | Link(bookingId: JsVal, amount: int)

  function DepositLinkFor(status: JsVal, id: JsVal, rent: Option<int>): (r: DepositLink)
    ensures r.Link? <==> CardStatus(status) == "AWAITING_PAYMENT"
    ensures r.Link? ==> r.bookingId == id && r.amount == Deposit(rent)
  {
    if CardStatus(status) == "AWAITING_PAYMENT" then Link(id, Deposit(rent)) else NoLink
  }

  /** For a status the server sends, the link appears only on AWAITING_PAYMENT bookings. */
  lemma DepositLinkOnServer(st: Status, id: JsVal, rent: Option<int>)
    ensures DepositLinkFor(JStr(StatusName(st)), id, rent).Link? <==> st == AwaitingPayment
  {
    StatusNameUpper(st);
  }

  /** Following the link opens the deposit page: its form is usable exactly when the
      booking id is non-zero and the deposit is, so a rent of -2..1 (or none) leads to
      "Invalid booking or amount.". */
  method FollowDepositLink(bookingId: int, rent: Option<int>) returns (formShown: bool)
    ensures formShown <==> bookingId != 0 && rent.Some? && (rent.value >= 2 || rent.value <= -3)
  {
    var page := new PaymentForm.PaymentPage();
    page.Init(bookingId, Deposit(rent), None, 0, 0);
    DepositZero(rent);
    formShown := page.ready;
  }
}
