/** Account verification, login, password reset and admin access. Users live in one
    store keyed by e-mail (the unique column `findByEmail` searches); the controllers and
    services share it. The password encoder and the random draws are parameters: `encode`
    and `matches` stand for `PasswordEncoder.encode` / `matches`, a draw is the value
    `Random.nextInt(bound)` returned. */
module Accounts {
  import opened Text
  import opened Domain

  /** Ten minutes in milliseconds: how long a password-reset code stays valid. */
  const TenMinutesMs: int := 10 * 60 * 1000

  datatype Role = Renter | Provider | Admin

  /** `Role.name()`. */
  function RoleName(r: Role): string
  {
    match r
    case Renter => "RENTER"
    case Provider => "PROVIDER"
    case Admin => "ADMIN"
  }

  /** The `user` row. `password` holds the encoded password; the codes and the reset
      expiry are nullable columns. */
  datatype User = User(
    id: nat,
    name: string,
    email: string,
    password: string,
    verified: bool,
    verificationCode: Option<string>,
    resetCode: Option<string>,
    resetExpiresAt: Option<int>,
    role: Role)

  /** A registration body: the raw password, a role that may be absent, and the
      columns a client may also send, which the handlers keep unless they overwrite
      them (the verified flag, the verification code, the reset code and its expiry). */
  datatype SignUp = SignUp(
    name: string,
    email: string,
    password: string,
    role: Option<Role>,
    verified: bool,
    verificationCode: Option<string>,
    resetCode: Option<string>,
    resetExpiresAt: Option<int>)

  /** An HTTP reply: status and text body, or the NullPointerException that ends the
      request with a server error. */
  datatype Reply = Reply(status: nat, body: string) | NullPointer

  /** What `/api/auth/login` answers: a refusal, or the profile map. */
  datatype LoginReply =
    | Refused(status: nat, message: string)
    | Profile(name: string, email: string, role: string, userId: string)

  // ---------------------------------------------------------------- user rows

  /** The row `register` saves: encoded password, unverified, the fresh verification
      code, and RENTER when no role was given; the reset columns are the body's. */
  function Registered(form: SignUp, id: nat, encoded: string, code: string): User
  {
    User(id, form.name, form.email, encoded, false, Some(code), form.resetCode, form.resetExpiresAt,
         if form.role.Some? then form.role.value else Renter)
  }

  /** The row `AuthService.register` saves: only the password and a missing role are
      set, so the verified flag and both codes are whatever the body carried. */
  function RegisteredByService(form: SignUp, id: nat, encoded: string): User
  {
    User(id, form.name, form.email, encoded, form.verified, form.verificationCode,
         form.resetCode, form.resetExpiresAt,
         if form.role.Some? then form.role.value else Renter)
  }

  /** The row `registerAdmin` saves: the role is ADMIN whatever the body said; the
      reset columns are the body's. */
  function RegisteredAdmin(form: SignUp, id: nat, encoded: string, code: string): User
  {
    User(id, form.name, form.email, encoded, false, Some(code), form.resetCode, form.resetExpiresAt, Admin)
  }

  /** `verifyCode` accepts `code` for an unverified user iff the stored code equals it. */
  predicate CodeMatches(u: User, code: string)
  {
    u.verificationCode == Some(code)
  }

  /** A reset with `code` at `now` goes through: a code is stored and equals it, an
      expiry is stored and `now` is not strictly after it. */
  predicate ResetAccepted(u: User, code: string, now: int)
  {
    u.resetCode == Some(code) && u.resetExpiresAt.Some? && now <= u.resetExpiresAt.value
  }

  /** A user store is well formed when every row sits under its own e-mail and ids are
      below the next id and pairwise distinct. */
  predicate WellKeyed(users: map<string, User>, nextId: nat)
  {
    && (forall e :: e in users ==> users[e].email == e && users[e].id < nextId)
    && (forall a, b :: a in users && b in users && a != b ==> users[a].id != users[b].id)
  }

  /** Adding a row under its own e-mail with the next id keeps the store well formed. */
  lemma AddKeepsWellKeyed(users: map<string, User>, nextId: nat, u: User)
    requires WellKeyed(users, nextId) && u.email !in users && u.id == nextId
    ensures WellKeyed(users[u.email := u], nextId + 1)
  {
  }

  /** Updating fields other than id and e-mail keeps the store well formed. */
  lemma UpdateKeepsWellKeyed(users: map<string, User>, nextId: nat, e: string, u: User)
    requires WellKeyed(users, nextId) && e in users && u.email == e && u.id == users[e].id
    ensures WellKeyed(users[e := u], nextId)
  {
  }

  // ---------------------------------------------------------------- the store

  /** The `UserRepository`, one store shared by every account endpoint. */
  class UserStore {
    var users: map<string, User>
    var nextId: nat

    ghost predicate Valid()
      reads this
    {
      WellKeyed(users, nextId)
    }

    constructor()
      ensures Valid() && users == map[] && nextId == 1
    {
      users := map[];
      nextId := 1;
    }
  }

  // ---------------------------------------------------------------- /api/auth

  /** `AuthController`: register, verify-code and login. */
  class AuthController {
    const store: UserStore

    constructor(store: UserStore)
      ensures this.store == store
    {
      this.store := store;
    }

    /** `register`: an e-mail already present is refused and nothing is saved; otherwise
        the row is saved with the encoded password, unverified, the zero-padded draw as
        its code (`nextInt(999999)` gives 0..999998) and RENTER as the default role. */
    method Register(form: SignUp, encode: string -> string, draw: nat) returns (reply: Reply)
      requires store.Valid() && draw < 999999
      modifies store
      ensures store.Valid()
      ensures form.email in old(store.users) ==>
                && reply == Reply(400, "Email already registered.")
                && store.users == old(store.users) && store.nextId == old(store.nextId)
      ensures form.email !in old(store.users) ==>
                && reply == Reply(200, "Registration successful. Check your email for the verification code.")
                && store.users == old(store.users)[form.email :=
                     Registered(form, old(store.nextId), encode(form.password), ZeroPad6(draw))]
                && store.nextId == old(store.nextId) + 1
    {
      if form.email in store.users {
        return Reply(400, "Email already registered.");
      }
      var u := Registered(form, store.nextId, encode(form.password), ZeroPad6(draw));
      AddKeepsWellKeyed(store.users, store.nextId, u);
      store.users := store.users[form.email := u];
      store.nextId := store.nextId + 1;
      reply := Reply(200, "Registration successful. Check your email for the verification code.");
    }

    /** `verifyCode`: unknown e-mail 400; already verified 200 with no change; a stored
        code equal to `code` verifies and clears it; a different one is 400 with no
        change. A row without a code (one saved by `AuthService.register` from a body without one) makes
        `getVerificationCode().equals` throw. */
    method VerifyCode(email: string, code: string) returns (reply: Reply)
      requires store.Valid()
      modifies store
      ensures store.Valid() && store.nextId == old(store.nextId)
      ensures email !in old(store.users) ==>
                reply == Reply(400, "Invalid email.") && store.users == old(store.users)
      ensures email in old(store.users) && old(store.users)[email].verified ==>
                reply == Reply(200, "Already verified.") && store.users == old(store.users)
      ensures email in old(store.users) && !old(store.users)[email].verified ==>
                var u := old(store.users)[email];
                && (u.verificationCode.None? ==> reply == NullPointer && store.users == old(store.users))
                && (CodeMatches(u, code) ==>
                      && reply == Reply(200, "Email verified successfully!")
                      && store.users == old(store.users)[email := u.(verified := true, verificationCode := None)])
                && (u.verificationCode.Some? && !CodeMatches(u, code) ==>
                      reply == Reply(400, "Invalid verification code.") && store.users == old(store.users))
    {
      if email !in store.users {
        return Reply(400, "Invalid email.");
      }
      var u := store.users[email];
      if u.verified {
        return Reply(200, "Already verified.");
      }
      match u.verificationCode
      case None =>
        reply := NullPointer;
      case Some(stored) =>
        if stored == code {
          var v := u.(verified := true, verificationCode := None);
          UpdateKeepsWellKeyed(store.users, store.nextId, email, v);
          store.users := store.users[email := v];
          reply := Reply(200, "Email verified successfully!");
        } else {
          reply := Reply(400, "Invalid verification code.");
        }
    }

    /** `login`: unknown e-mail 401, wrong password 401, unverified 403, in that order;
        only a verified user whose password matches gets the profile. */
    function Login(email: string, password: string, matches: (string, string) -> bool): (r: LoginReply)
      reads this, store
      ensures r.Profile? <==>
                email in store.users && matches(password, store.users[email].password) && store.users[email].verified
      ensures email !in store.users ==> r == Refused(401, "Invalid email")
      ensures email in store.users && !matches(password, store.users[email].password) ==>
                r == Refused(401, "Invalid password")
      ensures email in store.users && matches(password, store.users[email].password) && !store.users[email].verified ==>
                r == Refused(403, "Please verify your email before logging in.")
      ensures r.Profile? ==> var u := store.users[email];
                r.name == u.name && r.email == u.email && r.role == RoleName(u.role) && r.userId == NatToString(u.id)
    {
      if email !in store.users then Refused(401, "Invalid email")
      else
        var u := store.users[email];
        if !matches(password, u.password) then Refused(401, "Invalid password")
        else if !u.verified then Refused(403, "Please verify your email before logging in.")
        else Profile(u.name, u.email, RoleName(u.role), NatToString(u.id))
    }
  }

  // ---------------------------------------------------------------- password reset

  /** `PasswordResetController`: forgot-password and reset-password. */
  class PasswordResetController {
    const store: UserStore

    constructor(store: UserStore)
      ensures this.store == store
    {
      this.store := store;
    }

    /** `forgot`: an unknown e-mail is a 400 and nothing changes; otherwise the
        zero-padded draw (`nextInt(1_000_000)`, 0..999999) becomes the reset code,
        valid until ten minutes after `now`, replacing any earlier one. */
    method Forgot(email: string, draw: nat, now: int) returns (reply: Reply)
      requires store.Valid() && draw < 1000000
      modifies store
      ensures store.Valid() && store.nextId == old(store.nextId)
      ensures email !in old(store.users) ==>
                reply == Reply(400, "No user for this email") && store.users == old(store.users)
      ensures email in old(store.users) ==>
                && reply == Reply(200, "")
                && store.users == old(store.users)[email := old(store.users)[email].(
                     resetCode := Some(ZeroPad6(draw)), resetExpiresAt := Some(now + TenMinutesMs))]
    {
      if email !in store.users {
        return Reply(400, "No user for this email");
      }
      var u := store.users[email].(resetCode := Some(ZeroPad6(draw)), resetExpiresAt := Some(now + TenMinutesMs));
      UpdateKeepsWellKeyed(store.users, store.nextId, email, u);
      store.users := store.users[email := u];
      reply := Reply(200, "");
    }

    /** `reset`: an unknown e-mail is a 400; a missing or different code, a missing
        expiry or a `now` strictly after the expiry is a 400 with the password kept;
        otherwise the encoded new password is stored and code and expiry are cleared. */
    method Reset(email: string, code: string, newPassword: string, encode: string -> string, now: int)
      returns (reply: Reply)
      requires store.Valid()
      modifies store
      ensures store.Valid() && store.nextId == old(store.nextId)
      ensures email !in old(store.users) ==>
                reply == Reply(400, "No user for this email") && store.users == old(store.users)
      ensures email in old(store.users) && !ResetAccepted(old(store.users)[email], code, now) ==>
                reply == Reply(400, "Invalid or expired code") && store.users == old(store.users)
      ensures email in old(store.users) && ResetAccepted(old(store.users)[email], code, now) ==>
                && reply == Reply(200, "")
                && store.users == old(store.users)[email := old(store.users)[email].(
                     password := encode(newPassword), resetCode := None, resetExpiresAt := None)]
    {
      if email !in store.users {
        return Reply(400, "No user for this email");
      }
      var u := store.users[email];
      if u.resetCode.None? || u.resetCode.value != code || u.resetExpiresAt.None? || now > u.resetExpiresAt.value {
        return Reply(400, "Invalid or expired code");
      }
      var v := u.(password := encode(newPassword), resetCode := None, resetExpiresAt := None);
      UpdateKeepsWellKeyed(store.users, store.nextId, email, v);
      store.users := store.users[email := v];
      reply := Reply(200, "");
    }
  }

  // ---------------------------------------------------------------- admin access

  /** `AdminAccessService`: an in-memory map from e-mail to the admin code last sent. */
  class AdminAccessService {
    const configuredSecretKey: string
    var verificationCodes: map<string, string>

    constructor(configuredSecretKey: string)
      ensures this.configuredSecretKey == configuredSecretKey && verificationCodes == map[]
    {
      this.configuredSecretKey := configuredSecretKey;
      verificationCodes := map[];
    }

    /** `requestAccess`: a wrong secret returns the error text and leaves the map alone;
        the right one stores `draw + 100000` (`nextInt(900000) + 100000`, six digits)
        for the e-mail, replacing any earlier code. */
    method RequestAccess(email: string, secretKey: string, draw: nat) returns (msg: string)
      requires draw < 900000
      modifies this
      ensures secretKey != configuredSecretKey ==>
                msg == "❌ Invalid secret key!" && verificationCodes == old(verificationCodes)
      ensures secretKey == configuredSecretKey ==>
                && msg == "✅ Verification code sent to: " + email
                && verificationCodes == old(verificationCodes)[email := AdminCode(draw)]
    {
      if configuredSecretKey != secretKey {
        return "❌ Invalid secret key!";
      }
      verificationCodes := verificationCodes[email := AdminCode(draw)];
      msg := "✅ Verification code sent to: " + email;
    }

    /** `verifyCode`. */
    function VerifyCode(email: string, code: string): (ok: bool)
      reads this
      ensures ok <==> CodeStored(verificationCodes, email, code)
    {
      email in verificationCodes && code == verificationCodes[email]
    }

    /** `clearCode`: forgets the e-mail's code. */
    method ClearCode(email: string)
      modifies this
      ensures verificationCodes == old(verificationCodes) - {email}
    {
      verificationCodes := verificationCodes - {email};
    }
  }

  /** `String.valueOf(nextInt(900000) + 100000)`: six digits reading back as the value. */
  function AdminCode(draw: nat): (code: string)
    requires draw < 900000
    ensures |code| == 6 && AllDigits(code) && DigitsValue(code) == draw + 100000
  {
    assert Pow10(5) == 100000 && Pow10(6) == 1000000;
    NatToStringValue(draw + 100000);
    NatToStringAtMost(draw + 100000, 6);
    DigitsLengthAtLeast(NatToString(draw + 100000), 5);
    NatToString(draw + 100000)
  }

  /** The admin-code map holds `code` for `email`. */
  predicate CodeStored(codes: map<string, string>, email: string, code: string)
  {
    email in codes && codes[email] == code
  }

  /** After a successful request the new code, and only it, verifies for that e-mail;
      every other e-mail verifies as before. */
  lemma RequestThenVerify(codes: map<string, string>, email: string, draw: nat, other: string, code: string)
    requires draw < 900000
    ensures CodeStored(codes[email := AdminCode(draw)], email, code) <==> code == AdminCode(draw)
    ensures other != email ==>
              (CodeStored(codes[email := AdminCode(draw)], other, code) <==> CodeStored(codes, other, code))
  {
  }

  /** After clearing, nothing verifies for that e-mail and other e-mails are untouched. */
  lemma ClearThenReject(codes: map<string, string>, email: string, other: string, code: string)
    ensures !CodeStored(codes - {email}, email, code)
    ensures other != email ==> (CodeStored(codes - {email}, other, code) <==> CodeStored(codes, other, code))
  {
  }

  /** `AdminAccessController` at `/api/admin/auth`. */
  class AdminAccessController {
    const adminSecretKey: string
    const store: UserStore

    constructor(adminSecretKey: string, store: UserStore)
      ensures this.adminSecretKey == adminSecretKey && this.store == store
    {
      this.adminSecretKey := adminSecretKey;
      this.store := store;
    }

    /** `registerAdmin`: a wrong secret is a 401 before the e-mail is looked at; a known
        e-mail is a 400; otherwise the row is saved as ADMIN, unverified, with the
        encoded password and the zero-padded draw (0..999998) as its code. */
    method RegisterAdmin(form: SignUp, secret: string, encode: string -> string, draw: nat) returns (reply: Reply)
      requires store.Valid() && draw < 999999
      modifies store
      ensures store.Valid()
      ensures secret != adminSecretKey ==>
                && reply == Reply(401, "❌ Invalid Admin Secret Key")
                && store.users == old(store.users) && store.nextId == old(store.nextId)
      ensures secret == adminSecretKey && form.email in old(store.users) ==>
                && reply == Reply(400, "Email already registered.")
                && store.users == old(store.users) && store.nextId == old(store.nextId)
      ensures secret == adminSecretKey && form.email !in old(store.users) ==>
                && reply == Reply(200, "✅ Admin registered. Verification code sent to email.")
                && store.users == old(store.users)[form.email :=
                     RegisteredAdmin(form, old(store.nextId), encode(form.password), ZeroPad6(draw))]
                && store.nextId == old(store.nextId) + 1
    {
      if adminSecretKey != secret {
        return Reply(401, "❌ Invalid Admin Secret Key");
      }
      if form.email in store.users {
        return Reply(400, "Email already registered.");
      }
      var u := RegisteredAdmin(form, store.nextId, encode(form.password), ZeroPad6(draw));
      AddKeepsWellKeyed(store.users, store.nextId, u);
      store.users := store.users[form.email := u];
      store.nextId := store.nextId + 1;
      reply := Reply(200, "✅ Admin registered. Verification code sent to email.");
    }
  }

  // ---------------------------------------------------------------- AuthService

  /** `AuthService`: the service-level register and login. */
  class AuthService {
    const store: UserStore

    constructor(store: UserStore)
      ensures this.store == store
    {
      this.store := store;
    }

    /** `register`: a known e-mail is refused and nothing is saved; otherwise the row is
        saved with the encoded password and RENTER as the default role. */
    method Register(form: SignUp, encode: string -> string) returns (msg: string)
      requires store.Valid()
      modifies store
      ensures store.Valid()
      ensures form.email in old(store.users) ==>
                msg == "Email already exists" && store.users == old(store.users) && store.nextId == old(store.nextId)
      ensures form.email !in old(store.users) ==>
                && msg == "Registration successful"
                && store.users == old(store.users)[form.email :=
                     RegisteredByService(form, old(store.nextId), encode(form.password))]
                && store.nextId == old(store.nextId) + 1
    {
      if form.email in store.users {
        return "Email already exists";
      }
      var u := RegisteredByService(form, store.nextId, encode(form.password));
      AddKeepsWellKeyed(store.users, store.nextId, u);
      store.users := store.users[form.email := u];
      store.nextId := store.nextId + 1;
      msg := "Registration successful";
    }

    /** `login`: unknown e-mail, then wrong password; verification is not checked. */
    function Login(email: string, password: string, matches: (string, string) -> bool): (msg: string)
      reads this, store
      ensures email !in store.users ==> msg == "Invalid email"
      ensures email in store.users && !matches(password, store.users[email].password) ==> msg == "Invalid password"
      ensures email in store.users && matches(password, store.users[email].password) ==>
                msg == "Login successful as: " + RoleName(store.users[email].role)
    {
      if email !in store.users then "Invalid email"
      else if !matches(password, store.users[email].password) then "Invalid password"
      else "Login successful as: " + RoleName(store.users[email].role)
    }
  }
}
