/**
 * The account handlers as the backend runs them: each request reads the
 * stores, runs its checks in the source's order and then changes stored
 * records. Every method is proved to end in the state,
 * and to send the reply, that the matching function of module Auth gives,
 * and to keep the store invariant Auth.Valid.
 */
module UserController {
  import opened Options
  import opened Digits
  import opened Auth
  import AuthProperties

  class Controller {
    var users: map<UserId, User>
    var sessions: multiset<UserId>
    var nextId: UserId
    var outbox: seq<Mail>

    /** The stores as one value. */
    function Snapshot(): Store
      reads this
    {
      Store(users, sessions, nextId, outbox)
    }

    /** Empty collections, as on a fresh database. */
    constructor ()
      ensures Snapshot() == Initial() && Valid(Snapshot())
    {
      users, sessions, nextId, outbox := map[], multiset{}, 0, [];
    }

    method RegisterUser(username: string, password: string, email: string, now: int) returns (reply: Reply)
      requires Valid(Snapshot())
      modifies this
      ensures Valid(Snapshot())
      ensures Step(Snapshot(), reply) == Register(old(Snapshot()), username, password, email, now)
    {
      if username == "" || password == "" || email == "" {
        return Reply(400, FieldsMissing);
      }
      if exists id :: id in users && users[id].email == email {
        return Reply(400, UserExists);
      }
      ghost var before := Snapshot();
      var id := nextId;
      var token := Token(id, now + VerifyTokenLifetime);
      users := users[id := User(username, email, Hash(password), false, Some(token), false, None, None)];
      nextId := nextId + 1;
      outbox := outbox + [VerificationMail(email, token)];
      reply := Reply(201, Created);
      assert Step(Snapshot(), reply) == Register(before, username, password, email, now);
      AuthProperties.RegisterKeepsValid(before, username, password, email, now);
    }

    method VerifyUser(header: Header, now: int) returns (reply: Reply)
      requires Valid(Snapshot())
      modifies this
      ensures Valid(Snapshot())
      ensures Step(Snapshot(), reply) == Auth.VerifyUser(old(Snapshot()), header, now)
    {
      if !header.Bearer? {
        return Reply(400, HeaderInvalid);
      }
      if header.token.Unverifiable? {
        return Reply(400, TokenInvalid);
      }
      var claims := header.token.claims;
      if Expired(claims, now) {
        return Reply(400, TokenExpired);
      }
      if claims.id !in users {
        return Reply(404, UserNotFound);
      }
      ghost var before := Snapshot();
      users := users[claims.id := users[claims.id].(token := None, isVerified := true)];
      reply := Reply(200, EmailVerified);
      assert Step(Snapshot(), reply) == Auth.VerifyUser(before, header, now);
      AuthProperties.VerifyUserKeepsValid(before, header, now);
    }

    method LoginUser(email: string, password: string, now: int) returns (reply: Reply, tokens: Option<Tokens>)
      requires Valid(Snapshot())
      modifies this
      ensures Valid(Snapshot())
      ensures LoginStep(Snapshot(), reply, tokens) == Login(old(Snapshot()), email, password, now)
    {
      if email == "" || password == "" {
        return Reply(400, FieldsMissing), None;
      }
      if !exists id :: id in users && users[id].email == email {
        return Reply(401, UserNotFound), None;
      }
      var id :| id in users && users[id].email == email;
      AuthProperties.FindsTheOwner(users, email, id);
      var user := users[id];
      if !Compare(password, user.password) {
        return Reply(402, WrongPassword), None;
      }
      if !user.isVerified {
        return Reply(403, NotVerified), None;
      }
      ghost var before := Snapshot();
      if id in sessions {
        sessions := sessions - multiset{id};
      }
      sessions := sessions + multiset{id};
      var access := Token(id, now + AccessTokenLifetime);
      var refresh := Token(id, now + RefreshTokenLifetime);
      users := users[id := user.(isLoggedIn := true)];
      reply, tokens := Reply(200, LoggedIn), Some(Tokens(access, refresh));
      assert LoginStep(Snapshot(), reply, tokens) == Login(before, email, password, now);
      AuthProperties.LoginKeepsValid(before, email, password, now);
    }

    /** `uid` is the id the authentication gate resolved from the bearer token. */
    method LogoutUser(uid: UserId) returns (reply: Reply)
      requires Valid(Snapshot())
      modifies this
      ensures Valid(Snapshot())
      ensures Step(Snapshot(), reply) == Logout(old(Snapshot()), uid)
    {
      ghost var before := Snapshot();
      sessions := sessions[uid := 0];
      if uid in users {
        users := users[uid := users[uid].(isLoggedIn := false)];
      }
      reply := Reply(200, LoggedOut);
      assert Step(Snapshot(), reply) == Logout(before, uid);
      AuthProperties.LogoutKeepsValid(before, uid);
    }

    /** The generated code is chosen freely in 100000..999999, standing for `Math.random()`. */
    method ForgetPassword(email: string, now: int) returns (reply: Reply)
      requires Valid(Snapshot())
      modifies this
      ensures Valid(Snapshot())
      ensures exists draw: nat ::
        (OtpLow <= draw <= OtpHigh &&
         Step(Snapshot(), reply) == Auth.ForgetPassword(old(Snapshot()), email, now, draw))
    {
      ghost var before := Snapshot();
      var draw: nat :| OtpLow <= draw <= OtpHigh;
      if email == "" {
        reply := Reply(402, EmailMissing);
      } else if !exists id :: id in users && users[id].email == email {
        reply := Reply(401, UserNotFound);
      } else {
        var id :| id in users && users[id].email == email;
        AuthProperties.FindsTheOwner(users, email, id);
        var code := Decimal(draw);
        var expiry := now + OtpLifetime;
        users := users[id := users[id].(otp := Some(code), otpExpiry := Some(expiry))];
        outbox := outbox + [OtpMail(email, code)];
        reply := Reply(200, OtpSent);
      }
      assert Step(Snapshot(), reply) == Auth.ForgetPassword(before, email, now, draw);
      AuthProperties.ForgetPasswordKeepsValid(before, email, now, draw);
    }

    method VerifyOtp(email: string, otp: string, now: int) returns (reply: Reply)
      requires Valid(Snapshot())
      modifies this
      ensures Valid(Snapshot())
      ensures Step(Snapshot(), reply) == Auth.VerifyOtp(old(Snapshot()), email, otp, now)
    {
      if otp == "" {
        return Reply(400, OtpMissing);
      }
      if !exists id :: id in users && users[id].email == email {
        return Reply(404, UserNotFound);
      }
      var id :| id in users && users[id].email == email;
      AuthProperties.FindsTheOwner(users, email, id);
      var user := users[id];
      if user.otp.None? || user.otp.value == "" || user.otpExpiry.None? {
        return Reply(401, OtpNotPending);
      }
      if user.otpExpiry.value < now {
        return Reply(401, OtpExpired);
      }
      if user.otp.value != otp {
        return Reply(400, OtpInvalid);
      }
      ghost var before := Snapshot();
      users := users[id := user.(otp := None, otpExpiry := None)];
      reply := Reply(200, OtpVerified);
      assert Step(Snapshot(), reply) == Auth.VerifyOtp(before, email, otp, now);
      AuthProperties.VerifyOtpKeepsValid(before, email, otp, now);
    }

    method ChangePassword(email: string, newPassword: string, confirmPassword: string) returns (reply: Reply)
      requires Valid(Snapshot())
      modifies this
      ensures Valid(Snapshot())
      ensures Step(Snapshot(), reply) == Auth.ChangePassword(old(Snapshot()), email, newPassword, confirmPassword)
    {
      if newPassword == "" || confirmPassword == "" {
        return Reply(400, FieldsMissing);
      }
      if newPassword != confirmPassword {
        return Reply(400, PasswordsDiffer);
      }
      if !exists id :: id in users && users[id].email == email {
        return Reply(404, UserNotFound);
      }
      var id :| id in users && users[id].email == email;
      AuthProperties.FindsTheOwner(users, email, id);
      ghost var before := Snapshot();
      users := users[id := users[id].(password := Hash(newPassword))];
      reply := Reply(200, PasswordChanged);
      assert Step(Snapshot(), reply) == Auth.ChangePassword(before, email, newPassword, confirmPassword);
      AuthProperties.ChangePasswordKeepsValid(before, email, newPassword, confirmPassword);
    }
  }
}
