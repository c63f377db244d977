/**
 * What the account handlers promise: the store invariant is kept by every
 * handler, the error checks come in a fixed order and leave the store as it
 * was, and the properties that only show over several requests (a reset code
 * is used once, logging out twice is logging out once, a second login leaves
 * one session).
 */
module AuthProperties {
  import opened Options
  import opened Digits
  import opened Auth

  /** With unique e-mails, the lookup finds the one user that has the address. */
  lemma FindsTheOwner(users: map<UserId, User>, email: string, id: UserId)
    requires EmailsUnique(users) && id in users && users[id].email == email
    ensures FindByEmail(users, email) == Some(id)
  {
  }

  lemma InitialValid()
    ensures Valid(Initial())
  {
  }

  // ---------------------------------------------------------------------------
  // Every handler keeps the invariant
  // ---------------------------------------------------------------------------

  lemma RegisterKeepsValid(s: Store, username: string, password: string, email: string, now: int)
    requires Valid(s)
    ensures Valid(Register(s, username, password, email, now).post)
  {
    var r := Register(s, username, password, email, now);
    if r.reply.code == 201 {
      var id := s.nextId;
      assert id !in s.users;
      assert id !in s.sessions;
      assert forall other :: other in s.users ==> s.users[other].email != email;
    }
  }

  lemma VerifyUserKeepsValid(s: Store, header: Header, now: int)
    requires Valid(s)
    ensures Valid(VerifyUser(s, header, now).post)
  {
  }

  lemma LoginKeepsValid(s: Store, email: string, password: string, now: int)
    requires Valid(s)
    ensures Valid(Login(s, email, password, now).post)
  {
    var r := Login(s, email, password, now);
    if r.reply.code == 200 {
      var id := FindByEmail(s.users, email).value;
      SameEmailKeepsUnique(s.users, id, s.users[id].(isLoggedIn := true));
      assert r.post.users == s.users[id := s.users[id].(isLoggedIn := true)];
      assert r.post.sessions == ReplaceSession(s.sessions, id);
      assert r.post.sessions[id] == 1;
    }
  }

  /** Replacing a user's record by one with the same address keeps addresses unique. */
  lemma SameEmailKeepsUnique(users: map<UserId, User>, id: UserId, u: User)
    requires EmailsUnique(users) && id in users && u.email == users[id].email
    ensures EmailsUnique(users[id := u])
  {
    var post := users[id := u];
    forall a, b | a in post && b in post && post[a].email == post[b].email ensures a == b {
      assert post[a].email == users[a].email && post[b].email == users[b].email;
    }
  }

  lemma LogoutKeepsValid(s: Store, uid: UserId)
    requires Valid(s)
    ensures Valid(Logout(s, uid).post)
  {
    var post := Logout(s, uid).post;
    if uid in s.users {
      SameEmailKeepsUnique(s.users, uid, s.users[uid].(isLoggedIn := false));
      assert post.users == s.users[uid := s.users[uid].(isLoggedIn := false)];
    } else {
      assert post.users == s.users;
    }
    assert post.sessions == s.sessions[uid := 0];
    assert SessionsConsistent(post);
  }

  lemma ForgetPasswordKeepsValid(s: Store, email: string, now: int, draw: nat)
    requires Valid(s) && OtpLow <= draw <= OtpHigh
    ensures Valid(ForgetPassword(s, email, now, draw).post)
  {
    SixDigitCode(draw);
  }

  lemma VerifyOtpKeepsValid(s: Store, email: string, otp: string, now: int)
    requires Valid(s)
    ensures Valid(VerifyOtp(s, email, otp, now).post)
  {
  }

  lemma ChangePasswordKeepsValid(s: Store, email: string, newPassword: string, confirmPassword: string)
    requires Valid(s)
    ensures Valid(ChangePassword(s, email, newPassword, confirmPassword).post)
  {
  }

  // ---------------------------------------------------------------------------
  // Registration and e-mail verification
  // ---------------------------------------------------------------------------

  /** A successful registration adds one unverified user under a fresh id, holding the hash and a ten-minute token that is also mailed. */
  lemma RegisterAddsOneUser(s: Store, username: string, password: string, email: string, now: int)
    requires Valid(s)
    requires Register(s, username, password, email, now).reply.code == 201
    ensures var post := Register(s, username, password, email, now).post;
      var token := Token(s.nextId, now + VerifyTokenLifetime);
      && s.nextId !in s.users
      && post.users.Keys == s.users.Keys + {s.nextId}
      && |post.users| == |s.users| + 1
      && (forall id :: id in s.users ==> post.users[id] == s.users[id])
      && post.users[s.nextId] == User(username, email, Hash(password), false, Some(token), false, None, None)
      && FindByEmail(post.users, email) == Some(s.nextId)
      && post.sessions == s.sessions
      && post.outbox == s.outbox + [VerificationMail(email, token)]
  {
    var post := Register(s, username, password, email, now).post;
    RegisterKeepsValid(s, username, password, email, now);
    FindsTheOwner(post.users, email, s.nextId);
  }

  /** Registering an address a second time is refused and creates no user. */
  lemma RegisterTwiceFails(s: Store, username: string, password: string, email: string, now: int,
                           username': string, password': string, now': int)
    requires Valid(s)
    requires Register(s, username, password, email, now).reply.code == 201
    requires username' != "" && password' != ""
    ensures var post := Register(s, username, password, email, now).post;
      Register(post, username', password', email, now') == Step(post, Reply(400, UserExists))
  {
    RegisterAddsOneUser(s, username, password, email, now);
  }

  /** A token whose lifetime is over is refused as expired, whether or not its user exists. */
  lemma ExpiredTokenRefused(s: Store, t: Token, now: int)
    requires now >= t.expiresAt
    ensures VerifyUser(s, Bearer(Signed(t)), now) == Step(s, Reply(400, TokenExpired))
  {
  }

  /** A live token for a known user marks exactly that user verified and drops the stored token. */
  lemma VerifyUserMarksVerified(s: Store, t: Token, now: int)
    requires now < t.expiresAt && t.id in s.users
    ensures var post := VerifyUser(s, Bearer(Signed(t)), now).post;
      && post.users[t.id].isVerified
      && post.users[t.id].token.None?
      && post.users[t.id] == s.users[t.id].(isVerified := true, token := None)
      && (forall id :: id in s.users && id != t.id ==> post.users[id] == s.users[id])
      && post.users.Keys == s.users.Keys
      && post.sessions == s.sessions
  {
  }

  // ---------------------------------------------------------------------------
  // Login and logout
  // ---------------------------------------------------------------------------

  /** The password is checked before verification: an unverified user who mistypes gets 402, not 403. */
  lemma LoginWrongPasswordBeforeUnverified(s: Store, email: string, password: string, now: int, id: UserId)
    requires EmailsUnique(s.users) && id in s.users && s.users[id].email == email
    requires email != "" && password != "" && !Compare(password, s.users[id].password) && !s.users[id].isVerified
    ensures Login(s, email, password, now) == LoginStep(s, Reply(402, WrongPassword), None)
  {
    FindsTheOwner(s.users, email, id);
  }

  /** A correct password does not get an unverified user in. */
  lemma LoginUnverifiedForbidden(s: Store, email: string, password: string, now: int, id: UserId)
    requires EmailsUnique(s.users) && id in s.users && s.users[id].email == email
    requires email != "" && password != "" && Compare(password, s.users[id].password) && !s.users[id].isVerified
    ensures Login(s, email, password, now) == LoginStep(s, Reply(403, NotVerified), None)
  {
    FindsTheOwner(s.users, email, id);
  }

  /**
   * A successful login marks the user logged in, issues a ten-day access token
   * and a thirty-day refresh token for that user, and leaves one session for the
   * user when there was at most one before.
   */
  lemma LoginOpensOneSession(s: Store, email: string, password: string, now: int)
    requires Login(s, email, password, now).reply.code == 200
    ensures var r := Login(s, email, password, now);
      var id := FindByEmail(s.users, email).value;
      && r.tokens == Some(Tokens(Token(id, now + AccessTokenLifetime), Token(id, now + RefreshTokenLifetime)))
      && r.post.users[id] == s.users[id].(isLoggedIn := true)
      && (s.sessions[id] <= 1 ==> r.post.sessions[id] == 1)
      && (forall other :: other != id ==> r.post.sessions[other] == s.sessions[other])
      && r.post.users.Keys == s.users.Keys
      && (forall other :: other in s.users && other != id ==> r.post.users[other] == s.users[other])
  {
  }

  /** Logging in again leaves exactly one session for the user. */
  lemma LoginTwiceOneSession(s: Store, email: string, password: string, now: int, later: int)
    requires Valid(s)
    requires Login(s, email, password, now).reply.code == 200
    ensures var mid := Login(s, email, password, now).post;
      var r := Login(mid, email, password, later);
      var id := FindByEmail(s.users, email).value;
      r.reply.code == 200 && r.post.sessions[id] == 1
  {
    var id := FindByEmail(s.users, email).value;
    var mid := Login(s, email, password, now).post;
    LoginKeepsValid(s, email, password, now);
    FindsTheOwner(mid.users, email, id);
    LoginOpensOneSession(mid, email, password, later);
  }

  /** Logging out twice leaves the stores as logging out once. */
  lemma {:induction false} LogoutIdempotent(s: Store, uid: UserId)
    ensures Logout(Logout(s, uid).post, uid) == Logout(s, uid)
  {
    var once := Logout(s, uid).post;
    var twice := Logout(once, uid).post;
    assert twice.sessions == once.sessions;
    assert twice.users == once.users;
  }

  // ---------------------------------------------------------------------------
  // Password reset
  // ---------------------------------------------------------------------------

  /** A reset request stores a six-digit code with a ten-minute expiry, both at once, and mails the code. */
  lemma ForgetPasswordIssuesCode(s: Store, email: string, now: int, draw: nat)
    requires OtpLow <= draw <= OtpHigh
    requires ForgetPassword(s, email, now, draw).reply.code == 200
    ensures var post := ForgetPassword(s, email, now, draw).post;
      var id := FindByEmail(s.users, email).value;
      && post.users[id].otp == Some(Decimal(draw))
      && IsSixDigits(post.users[id].otp.value)
      && ValueOf(post.users[id].otp.value) == draw
      && post.users[id].otpExpiry == Some(now + OtpLifetime)
      && post.users[id] == s.users[id].(otp := Some(Decimal(draw)), otpExpiry := Some(now + OtpLifetime))
      && (forall other :: other in s.users && other != id ==> post.users[other] == s.users[other])
      && post.users.Keys == s.users.Keys
      && post.sessions == s.sessions
      && post.outbox == s.outbox + [OtpMail(email, Decimal(draw))]
  {
    SixDigitCode(draw);
  }

  /** A code is single-use: once accepted, any further attempt with the same address is told no code is pending. */
  lemma OtpSingleUse(s: Store, email: string, otp: string, now: int, otp': string, later: int)
    requires Valid(s)
    requires VerifyOtp(s, email, otp, now).reply.code == 200
    requires otp' != ""
    ensures var post := VerifyOtp(s, email, otp, now).post;
      VerifyOtp(post, email, otp', later) == Step(post, Reply(401, OtpNotPending))
  {
    var id := FindByEmail(s.users, email).value;
    var post := VerifyOtp(s, email, otp, now).post;
    VerifyOtpKeepsValid(s, email, otp, now);
    FindsTheOwner(post.users, email, id);
  }

  /** The expiry instant itself is still accepted (`otpExpiry < now` rejects). */
  lemma OtpAcceptedAtExpiry(s: Store, email: string, otp: string, id: UserId)
    requires EmailsUnique(s.users) && id in s.users && s.users[id].email == email
    requires otp != "" && s.users[id].otp == Some(otp) && s.users[id].otpExpiry.Some?
    ensures VerifyOtp(s, email, otp, s.users[id].otpExpiry.value).reply == Reply(200, OtpVerified)
  {
    FindsTheOwner(s.users, email, id);
  }

  /**
   * The reset round trip: the code a reset request mails is accepted for the
   * same address at any time up to ten minutes later.
   */
  lemma ResetCodeRoundTrip(s: Store, email: string, now: int, draw: nat, later: int)
    requires Valid(s) && OtpLow <= draw <= OtpHigh
    requires ForgetPassword(s, email, now, draw).reply.code == 200
    requires now <= later <= now + OtpLifetime
    ensures var post := ForgetPassword(s, email, now, draw).post;
      && post.outbox[|post.outbox| - 1] == OtpMail(email, Decimal(draw))
      && VerifyOtp(post, email, Decimal(draw), later).reply == Reply(200, OtpVerified)
  {
    var id := FindByEmail(s.users, email).value;
    var post := ForgetPassword(s, email, now, draw).post;
    ForgetPasswordKeepsValid(s, email, now, draw);
    SixDigitCode(draw);
    FindsTheOwner(post.users, email, id);
    assert post.users[id].otp == Some(Decimal(draw));
  }

  /** After its expiry a code is refused even when it matches, and nothing changes. */
  lemma OtpRefusedAfterExpiry(s: Store, email: string, otp: string, now: int, id: UserId)
    requires EmailsUnique(s.users) && id in s.users && s.users[id].email == email
    requires otp != "" && s.users[id].otp == Some(otp) && s.users[id].otpExpiry.Some?
    requires s.users[id].otpExpiry.value < now
    ensures VerifyOtp(s, email, otp, now) == Step(s, Reply(401, OtpExpired))
  {
    FindsTheOwner(s.users, email, id);
  }

  /** Acceptance clears the code and its expiry together and touches nothing else. */
  lemma OtpAcceptedClearsBoth(s: Store, email: string, otp: string, now: int)
    requires VerifyOtp(s, email, otp, now).reply.code == 200
    ensures var post := VerifyOtp(s, email, otp, now).post;
      var id := FindByEmail(s.users, email).value;
      && post.users[id] == s.users[id].(otp := None, otpExpiry := None)
      && (forall other :: other in s.users && other != id ==> post.users[other] == s.users[other])
      && post.users.Keys == s.users.Keys
      && post.sessions == s.sessions
  {
  }

  /**
   * The password change is not tied to a verified code: for any registered
   * address, matching non-empty passwords replace the hash whatever the user's
   * reset-code state, and that state is left as it was.
   */
  lemma ChangePasswordIgnoresOtp(s: Store, email: string, password: string, id: UserId)
    requires EmailsUnique(s.users) && id in s.users && s.users[id].email == email
    requires password != ""
    ensures var r := ChangePassword(s, email, password, password);
      && r.reply == Reply(200, PasswordChanged)
      && r.post.users[id] == s.users[id].(password := Hash(password))
      && r.post.users[id].otp == s.users[id].otp
      && r.post.users[id].otpExpiry == s.users[id].otpExpiry
      && (forall other :: other in s.users && other != id ==> r.post.users[other] == s.users[other])
      && r.post.users.Keys == s.users.Keys
      && r.post.sessions == s.sessions
  {
    FindsTheOwner(s.users, email, id);
  }

  // ---------------------------------------------------------------------------
  // A whole sign-up
  // ---------------------------------------------------------------------------

  /** A verified user logs in with the right password (200, two tokens) and then fails with a wrong one (402). */
  lemma VerifiedLogin(s: Store, id: UserId, email: string, password: string, wrong: string, now: int)
    requires Valid(s) && id in s.users && s.users[id].email == email && s.users[id].isVerified
    requires email != "" && password != "" && wrong != "" && wrong != password
    requires s.users[id].password == Hash(password)
    ensures var r := Login(s, email, password, now);
      && r.reply == Reply(200, LoggedIn) && r.tokens.Some?
      && Login(r.post, email, wrong, now + 1).reply == Reply(402, WrongPassword)
  {
    FindsTheOwner(s.users, email, id);
    var r := Login(s, email, password, now);
    assert r.reply == Reply(200, LoggedIn);
    LoginKeepsValid(s, email, password, now);
    assert r.post.users[id] == s.users[id].(isLoggedIn := true);
    FindsTheOwner(r.post.users, email, id);
    assert Hash(wrong) != Hash(password);
  }

  /** A fresh registration mails a 10-minute token for the new id, and login then gets 403 and changes nothing. */
  lemma RegisteredUnverified(s: Store, username: string, password: string, email: string, now: int)
    requires Valid(s) && !Registered(s.users, email) && username != "" && password != "" && email != ""
    ensures var r := Register(s, username, password, email, now);
      && r.reply == Reply(201, Created)
      && Valid(r.post)
      && s.nextId in r.post.users
      && r.post.users[s.nextId].email == email && r.post.users[s.nextId].password == Hash(password)
      && r.post.outbox[|r.post.outbox| - 1] == VerificationMail(email, Token(s.nextId, now + VerifyTokenLifetime))
      && Login(r.post, email, password, now + 1) == LoginStep(r.post, Reply(403, NotVerified), None)
  {
    RegisterAddsOneUser(s, username, password, email, now);
    RegisterKeepsValid(s, username, password, email, now);
    var r := Register(s, username, password, email, now);
    LoginUnverifiedForbidden(r.post, email, password, now + 1, s.nextId);
  }

  /**
   * Register, log in before verifying (403), verify with the mailed token (200),
   * log in with the right password (200, two tokens) and with a wrong one (402).
   */
  lemma SignupScenario(s: Store, now: int)
    requires Valid(s) && !Registered(s.users, "a@x.com")
    ensures var r1 := Register(s, "alice", "secret1", "a@x.com", now);
      && r1.reply == Reply(201, Created)
      && var r2 := Login(r1.post, "a@x.com", "secret1", now + 1);
      && r2.reply == Reply(403, NotVerified)
      && var mailed := r1.post.outbox[|r1.post.outbox| - 1];
      && mailed.VerificationMail? && mailed.to == "a@x.com"
      && var r3 := VerifyUser(r2.post, Bearer(Signed(mailed.token)), now + 2);
      && r3.reply == Reply(200, EmailVerified)
      && var r4 := Login(r3.post, "a@x.com", "secret1", now + 3);
      && r4.reply == Reply(200, LoggedIn) && r4.tokens.Some?
      && Login(r4.post, "a@x.com", "wrong", now + 4).reply == Reply(402, WrongPassword)
  {
    var id := s.nextId;
    var token := Token(id, now + VerifyTokenLifetime);
    var r1 := Register(s, "alice", "secret1", "a@x.com", now);
    RegisteredUnverified(s, "alice", "secret1", "a@x.com", now);
    var r2 := Login(r1.post, "a@x.com", "secret1", now + 1);

    VerifyUserMarksVerified(r2.post, token, now + 2);
    var r3 := VerifyUser(r2.post, Bearer(Signed(token)), now + 2);
    VerifyUserKeepsValid(r2.post, Bearer(Signed(token)), now + 2);
    assert r3.post.users[id] == r1.post.users[id].(isVerified := true, token := None);

    VerifiedLogin(r3.post, id, "a@x.com", "secret1", "wrong", now + 3);
  }

  // ---------------------------------------------------------------------------
  // The e-mail verification handler as written
  // ---------------------------------------------------------------------------

  /**
   * As written, a header that is not "Bearer ..." but whose second word is a
   * live registration token gets a 400 while the user is nonetheless marked
   * verified.
   */
  lemma VerifyUserAsWrittenVerifiesDespite400(s: Store, username: string, email: string, password: Digest, now: int)
    requires Valid(s)
    ensures var t := Token(s.nextId, now + 1);
      var user := User(username, email, password, false, Some(t), false, None, None);
      var s' := s.(users := s.users[s.nextId := user], nextId := s.nextId + 1);
      var r := VerifyUserAsWritten(s', NotBearer(Signed(t)), now);
      && r.reply == Reply(400, HeaderInvalid)
      && r.post.users[s.nextId].isVerified
      && !s'.users[s.nextId].isVerified
      && VerifyUser(s', NotBearer(Signed(t)), now) == Step(s', Reply(400, HeaderInvalid))
  {
  }
}
