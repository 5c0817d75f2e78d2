/** Properties of the account endpoints taken together: what a fresh registration
    leaves behind, how long a reset code works and that it works once, and how the
    controller's login differs from the service's. */
module AccountProperties {
  import opened Text
  import opened Domain
  import opened Accounts

  /** A freshly registered row is unverified, holds a six-digit code reading back as
      the draw (000000..999998), and verifies with that code and no other. */
  lemma RegisteredAwaitsCode(form: SignUp, id: nat, encoded: string, draw: nat, code: string)
    requires draw < 999999
    ensures var u := Registered(form, id, encoded, ZeroPad6(draw));
            && !u.verified && u.verificationCode.Some?
            && |u.verificationCode.value| == 6 && AllDigits(u.verificationCode.value)
            && DigitsValue(u.verificationCode.value) < 999999
            && (CodeMatches(u, code) <==> code == ZeroPad6(draw))
            && u.role == (if form.role.Some? then form.role.value else Renter)
            && u.resetCode == form.resetCode && u.resetExpiresAt == form.resetExpiresAt
  {
  }

  /** Two draws give the same six-digit code only when they are equal. */
  lemma ZeroPad6Injective(a: nat, b: nat)
    requires a < 1000000 && b < 1000000 && ZeroPad6(a) == ZeroPad6(b)
    ensures a == b
  {
    assert DigitsValue(ZeroPad6(a)) == a;
  }

  /** Once verified, the row holds no code and a second verification changes nothing. */
  lemma VerifiedStaysVerified(u: User, code: string)
    requires CodeMatches(u, code)
    ensures var v := u.(verified := true, verificationCode := None);
            v.verified && forall c :: !CodeMatches(v, c)
  {
  }

  /** The row registered through `AuthService` is verified, and verifies with a code,
      exactly as the body said: a plain sign-up body (unverified, no code) leaves a row
      that a later `verifyCode` reaches the null dereference on instead of verifying. */
  lemma ServiceRowHasNoCode(form: SignUp, id: nat, encoded: string, code: string)
    ensures var u := RegisteredByService(form, id, encoded);
            && u.verified == form.verified
            && (CodeMatches(u, code) <==> form.verificationCode == Some(code))
            && (!form.verified && form.verificationCode.None? ==>
                  !u.verified && u.verificationCode.None?)
  {
  }

  /** The code sent by `forgot` at `now` resets the password at any instant up to and
      including ten minutes later (the expiry check is a strict "after"), and no other
      code does. */
  lemma ForgotThenReset(u: User, draw: nat, now: int, code: string, t: int)
    requires draw < 1000000
    ensures var v := u.(resetCode := Some(ZeroPad6(draw)), resetExpiresAt := Some(now + TenMinutesMs));
            ResetAccepted(v, code, t) <==> code == ZeroPad6(draw) && t <= now + TenMinutesMs
  {
  }

  /** A later `forgot` replaces the code: the earlier code no longer resets unless the
      new draw happens to produce the same digits. */
  lemma ForgotReplacesCode(u: User, first: nat, second: nat, now: int, later: int, t: int)
    requires first < 1000000 && second < 1000000 && first != second
    ensures var v := u.(resetCode := Some(ZeroPad6(first)), resetExpiresAt := Some(now + TenMinutesMs));
            var w := v.(resetCode := Some(ZeroPad6(second)), resetExpiresAt := Some(later + TenMinutesMs));
            !ResetAccepted(w, ZeroPad6(first), t)
  {
    if ZeroPad6(first) == ZeroPad6(second) {
      ZeroPad6Injective(first, second);
    }
  }

  /** A successful reset clears code and expiry, so no code resets the same row again. */
  lemma ResetNotReusable(u: User, encoded: string, code: string, t: int)
    ensures var v := u.(password := encoded, resetCode := None, resetExpiresAt := None);
            !ResetAccepted(v, code, t)
  {
  }

  /** Admin codes are always six digits between 100000 and 999999, and distinct draws
      give distinct codes. */
  lemma AdminCodeRange(a: nat, b: nat)
    requires a < 900000 && b < 900000 && a != b
    ensures 100000 <= DigitsValue(AdminCode(a)) <= 999999
    ensures AdminCode(a) != AdminCode(b)
  {
    assert DigitsValue(AdminCode(b)) == b + 100000;
  }

  /** The controller's login and the service's login agree on the first two refusals,
      but an unverified user with the right password is refused 403 by the controller
      and let in by the service. */
  lemma LoginsDiffer(ctl: AuthController, svc: AuthService, email: string, password: string,
                     matches: (string, string) -> bool)
    requires ctl.store == svc.store
    ensures ctl.Login(email, password, matches).Refused? && ctl.Login(email, password, matches).status == 401
            <==> StartsWith(svc.Login(email, password, matches), "Invalid ")
    ensures email in svc.store.users && matches(password, svc.store.users[email].password)
              && !svc.store.users[email].verified ==>
              && ctl.Login(email, password, matches) == Refused(403, "Please verify your email before logging in.")
              && svc.Login(email, password, matches) == "Login successful as: " + RoleName(svc.store.users[email].role)
  {
    var s := svc.Login(email, password, matches);
    if email in svc.store.users && matches(password, svc.store.users[email].password) {
      assert s[..8] == "Login su";
      assert !StartsWith(s, "Invalid ");
    }
  }
}
