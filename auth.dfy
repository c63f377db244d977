/**
 * The account and authentication handlers of the backend, as transitions over
 * the user store, the session store and the mail outbox.
 *
 * Each handler is a function from the store before the request (and the
 * request's fields) to the store after it and the reply. The class in
 * user_controller.dfy performs the same steps field by field and is proved
 * to agree with these functions; the lemmas in auth_properties.dfy state
 * what the handlers promise across several requests.
 *
 * Stand-ins for what lives outside the repository:
 *  - bcrypt: `Hash` is an injective stand-in for the salted hash (distinct
 *    passwords have distinct hashes) and `Compare(p, h)` means `h == Hash(p)`;
 *  - JSON web tokens: a signed token is its claims `(id, expiresAt)`; a token
 *    whose signature or format does not check is `Unverifiable`;
 *  - `Date.now()`: the integer `now`, in milliseconds;
 *  - `Math.random()`: the drawn reset code `draw`, an integer in 100000..999999;
 *  - the mailer: an append-only outbox.
 * A request field that is absent, `null` or `""` is falsy in the handlers and
 * is written `""` here.
 */
module Auth {
  import opened Options
  import opened Digits

  type UserId = nat

  /** Token and code lifetimes, in milliseconds. */
  const VerifyTokenLifetime: int := 10 * 60 * 1000
  const AccessTokenLifetime: int := 10 * 24 * 60 * 60 * 1000
  const RefreshTokenLifetime: int := 30 * 24 * 60 * 60 * 1000
  const OtpLifetime: int := 10 * 60 * 1000

  /** The range of `Math.floor(100000 + Math.random() * 900000)`. */
  const OtpLow: nat := 100000
  const OtpHigh: nat := 999999

  datatype Digest = Digest(secret: string)

  function Hash(password: string): Digest {
    Digest(password)
  }

  predicate Compare(password: string, hashed: Digest) {
    hashed == Hash(password)
  }

  /** The claims of a signed token: the user it names and when it stops being accepted. */
  datatype Token = Token(id: UserId, expiresAt: int)

  /** The token library rejects a token as expired once the clock has reached its expiry. */
  predicate Expired(t: Token, now: int) {
    now >= t.expiresAt
  }

  /** What the token library makes of the token text it is handed. */
  datatype Presented = Signed(claims: Token) | Unverifiable

  /**
   * The Authorization header of the e-mail verification request: absent, present
   * but not of the form "Bearer <token>" (`second` is its second space-separated
   * word), or a bearer token.
   */
  datatype Header = NoHeader | NotBearer(second: Presented) | Bearer(token: Presented)

  datatype User = User(
    username: string,
    email: string,
    password: Digest,
    isVerified: bool,
    token: Option<Token>,
    isLoggedIn: bool,
    otp: Option<string>,
    otpExpiry: Option<int>)

  datatype Mail = VerificationMail(to: string, token: Token) | OtpMail(to: string, code: string)

  /** The user collection keyed by id, the session collection as a bag of user ids, the id generator and the mail sent so far. */
  datatype Store = Store(users: map<UserId, User>, sessions: multiset<UserId>, nextId: UserId, outbox: seq<Mail>)

  datatype Reason =
    | Created | UserExists | FieldsMissing
    | HeaderInvalid | TokenExpired | TokenInvalid | UserNotFound | EmailVerified
    | WrongPassword | NotVerified | LoggedIn | LoggedOut
    | EmailMissing | OtpSent
    | OtpMissing | OtpNotPending | OtpExpired | OtpInvalid | OtpVerified
    | PasswordsDiffer | PasswordChanged

  /** The HTTP status and which of the handler's messages was sent. */
  datatype Reply = Reply(code: int, reason: Reason)

  datatype Tokens = Tokens(access: Token, refresh: Token)

  datatype Step = Step(post: Store, reply: Reply)

  datatype LoginStep = LoginStep(post: Store, reply: Reply, tokens: Option<Tokens>)

  function Initial(): Store {
    Store(map[], multiset{}, 0, [])
  }

  // ---------------------------------------------------------------------------
  // The store invariant
  // ---------------------------------------------------------------------------

  ghost predicate EmailsUnique(users: map<UserId, User>) {
    forall a, b :: a in users && b in users && users[a].email == users[b].email ==> a == b
  }

  /** The reset code and its expiry are set together and cleared together. */
  predicate OtpPaired(u: User) {
    u.otp.Some? <==> u.otpExpiry.Some?
  }

  /** A stored reset code is a six-digit string. */
  predicate OtpWellFormed(u: User) {
    u.otp.Some? ==> IsSixDigits(u.otp.value)
  }

  /** At most one session per user, only for known users, and the login flag mirrors the session. */
  ghost predicate SessionsConsistent(s: Store) {
    && (forall id :: id in s.sessions ==> id in s.users && s.sessions[id] == 1)
    && (forall id :: id in s.users ==> (s.users[id].isLoggedIn <==> id in s.sessions))
  }

  ghost predicate Valid(s: Store) {
    && (forall id :: id in s.users ==> id < s.nextId)
    && (forall id :: id in s.users ==> s.users[id].email != "")
    && EmailsUnique(s.users)
    && (forall id :: id in s.users ==> OtpPaired(s.users[id]) && OtpWellFormed(s.users[id]))
    && SessionsConsistent(s)
  }

  ghost predicate Registered(users: map<UserId, User>, email: string) {
    exists id :: id in users && users[id].email == email
  }

  /** `User.findOne({ email })`. */
  ghost function FindByEmail(users: map<UserId, User>, email: string): (r: Option<UserId>)
    ensures r.Some? ==> r.value in users && users[r.value].email == email
    ensures r.None? <==> !Registered(users, email)
  {
    if Registered(users, email) then
      var id :| id in users && users[id].email == email; Some(id)
    else
      None
  }

  /** `Session.findOne` followed by `deleteOne` when one was found, then `Session.create`. */
  function ReplaceSession(sessions: multiset<UserId>, id: UserId): (r: multiset<UserId>)
    ensures r[id] == if sessions[id] == 0 then 1 else sessions[id]
    ensures forall other :: other != id ==> r[other] == sessions[other]
  {
    (if id in sessions then sessions - multiset{id} else sessions) + multiset{id}
  }

  // ---------------------------------------------------------------------------
  // The handlers
  // ---------------------------------------------------------------------------

  /** registerUser: back-end/Controllers/userController.js:8-61. */
  ghost function Register(s: Store, username: string, password: string, email: string, now: int): (r: Step)
    ensures r.reply.code == 201 || r.reply.code == 400
    ensures r.reply.code == 400 ==> r.post == s
    ensures r.reply.code == 201 <==> username != "" && password != "" && email != "" && !Registered(s.users, email)
  {
    if username == "" || password == "" || email == "" then
      Step(s, Reply(400, FieldsMissing))
    else if FindByEmail(s.users, email).Some? then
      Step(s, Reply(400, UserExists))
    else
      var id := s.nextId;
      var token := Token(id, now + VerifyTokenLifetime);
      var user := User(username, email, Hash(password), false, Some(token), false, None, None);
      Step(s.(users := s.users[id := user], nextId := id + 1, outbox := s.outbox + [VerificationMail(email, token)]),
           Reply(201, Created))
  }

  /** `users` after saving the record of user `id` as `u`: no record is added or removed, and no other record changes. */
  ghost predicate RecordSaved(users: map<UserId, User>, post: map<UserId, User>, id: UserId, u: User) {
    && id in users
    && post.Keys == users.Keys
    && post[id] == u
    && (forall other :: other in users && other != id ==> post[other] == users[other])
  }

  /** verifyUser: back-end/Controllers/userController.js:63-118, with a missing or malformed header ending the request. */
  ghost function VerifyUser(s: Store, header: Header, now: int): (r: Step)
    ensures r.reply.code != 200 ==> r.post == s
    ensures !header.Bearer? ==> r.reply == Reply(400, HeaderInvalid)
    ensures header.Bearer? && header.token.Unverifiable? ==> r.reply == Reply(400, TokenInvalid)
    ensures header.Bearer? && header.token.Signed? && Expired(header.token.claims, now) ==>
      r.reply == Reply(400, TokenExpired)
    ensures header.Bearer? && header.token.Signed? && !Expired(header.token.claims, now) && header.token.claims.id !in s.users ==>
      r.reply == Reply(404, UserNotFound)
    ensures r.reply.code == 200 <==>
      header.Bearer? && header.token.Signed? && !Expired(header.token.claims, now) && header.token.claims.id in s.users
    ensures header.Bearer? && header.token.Signed? && !Expired(header.token.claims, now) && header.token.claims.id in s.users ==>
      var id := header.token.claims.id;
      && r.reply == Reply(200, EmailVerified)
      && RecordSaved(s.users, r.post.users, id, s.users[id].(token := None, isVerified := true))
      && r.post.sessions == s.sessions && r.post.nextId == s.nextId && r.post.outbox == s.outbox
  {
    match header
    case NoHeader => Step(s, Reply(400, HeaderInvalid))
    case NotBearer(_) => Step(s, Reply(400, HeaderInvalid))
    case Bearer(presented) => Verification(s, presented, now)
  }

  /** The part of verifyUser after the header check (userController.js:74-111). */
  ghost function Verification(s: Store, presented: Presented, now: int): (r: Step)
    ensures r.reply.code != 200 ==> r.post == s
    ensures presented.Unverifiable? ==> r.reply == Reply(400, TokenInvalid)
    ensures presented.Signed? && Expired(presented.claims, now) ==> r.reply == Reply(400, TokenExpired)
    ensures presented.Signed? && !Expired(presented.claims, now) && presented.claims.id !in s.users ==>
      r.reply == Reply(404, UserNotFound)
    ensures presented.Signed? && !Expired(presented.claims, now) && presented.claims.id in s.users ==>
      var id := presented.claims.id;
      && r.reply == Reply(200, EmailVerified)
      && RecordSaved(s.users, r.post.users, id, s.users[id].(token := None, isVerified := true))
      && r.post.sessions == s.sessions && r.post.nextId == s.nextId && r.post.outbox == s.outbox
  {
    match presented
    case Unverifiable => Step(s, Reply(400, TokenInvalid))
    case Signed(t) =>
      if Expired(t, now) then Step(s, Reply(400, TokenExpired))
      else if t.id !in s.users then Step(s, Reply(404, UserNotFound))
      else
        var u := s.users[t.id];
        Step(s.(users := s.users[t.id := u.(token := None, isVerified := true)]), Reply(200, EmailVerified))
  }

  /** loginUser: back-end/Controllers/userController.js:120-198. */
  ghost function Login(s: Store, email: string, password: string, now: int): (r: LoginStep)
    ensures r.reply.code != 200 ==> r.post == s && r.tokens.None?
    ensures email == "" || password == "" ==> r.reply == Reply(400, FieldsMissing)
    ensures email != "" && password != "" && !Registered(s.users, email) ==> r.reply == Reply(401, UserNotFound)
    ensures email != "" && password != "" && Registered(s.users, email) ==>
      var id := FindByEmail(s.users, email).value;
      var u := s.users[id];
      && (!Compare(password, u.password) ==> r.reply == Reply(402, WrongPassword))
      && (Compare(password, u.password) && !u.isVerified ==> r.reply == Reply(403, NotVerified))
      && (r.reply.code == 200 <==> Compare(password, u.password) && u.isVerified)
      && (r.reply.code == 200 ==>
            && r.reply == Reply(200, LoggedIn)
            && r.tokens == Some(Tokens(Token(id, now + AccessTokenLifetime), Token(id, now + RefreshTokenLifetime)))
            && RecordSaved(s.users, r.post.users, id, u.(isLoggedIn := true))
            && r.post.sessions == ReplaceSession(s.sessions, id)
            && r.post.nextId == s.nextId && r.post.outbox == s.outbox)
    ensures r.reply.code == 200 ==> r.tokens.Some? && Registered(s.users, email)
  {
    if email == "" || password == "" then
      LoginStep(s, Reply(400, FieldsMissing), None)
    else match FindByEmail(s.users, email)
      case None => LoginStep(s, Reply(401, UserNotFound), None)
      case Some(id) =>
        var u := s.users[id];
        if !Compare(password, u.password) then LoginStep(s, Reply(402, WrongPassword), None)
        else if !u.isVerified then LoginStep(s, Reply(403, NotVerified), None)
        else
          var tokens := Tokens(Token(id, now + AccessTokenLifetime), Token(id, now + RefreshTokenLifetime));
          LoginStep(s.(users := s.users[id := u.(isLoggedIn := true)], sessions := ReplaceSession(s.sessions, id)),
                    Reply(200, LoggedIn), Some(tokens))
  }

  /** logoutUser: back-end/Controllers/userController.js:200-220, for the user id the authentication gate resolved. */
  ghost function Logout(s: Store, uid: UserId): (r: Step)
    ensures r.reply == Reply(200, LoggedOut)
    ensures uid !in r.post.sessions
    ensures forall other :: other != uid ==> r.post.sessions[other] == s.sessions[other]
    ensures r.post.users.Keys == s.users.Keys
    ensures uid in s.users ==> !r.post.users[uid].isLoggedIn
    ensures uid in s.users ==> RecordSaved(s.users, r.post.users, uid, s.users[uid].(isLoggedIn := false))
    ensures uid !in s.users ==> r.post.users == s.users
    ensures r.post.nextId == s.nextId && r.post.outbox == s.outbox
  {
    var users := if uid in s.users then s.users[uid := s.users[uid].(isLoggedIn := false)] else s.users;
    Step(s.(users := users, sessions := s.sessions[uid := 0]), Reply(200, LoggedOut))
  }

  /** forgetPassword: back-end/Controllers/userController.js:222-259; `draw` is the generated code. */
  ghost function ForgetPassword(s: Store, email: string, now: int, draw: nat): (r: Step)
    requires OtpLow <= draw <= OtpHigh
    ensures r.reply.code != 200 ==> r.post == s
    ensures email == "" ==> r.reply == Reply(402, EmailMissing)
    ensures email != "" && !Registered(s.users, email) ==> r.reply == Reply(401, UserNotFound)
    ensures r.reply.code == 200 <==> email != "" && Registered(s.users, email)
    ensures email != "" && Registered(s.users, email) ==>
      var id := FindByEmail(s.users, email).value;
      && r.reply == Reply(200, OtpSent)
      && RecordSaved(s.users, r.post.users, id,
                     s.users[id].(otp := Some(Decimal(draw)), otpExpiry := Some(now + OtpLifetime)))
      && r.post.sessions == s.sessions && r.post.nextId == s.nextId
      && r.post.outbox == s.outbox + [OtpMail(email, Decimal(draw))]
  {
    if email == "" then
      Step(s, Reply(402, EmailMissing))
    else match FindByEmail(s.users, email)
      case None => Step(s, Reply(401, UserNotFound))
      case Some(id) =>
        var code := Decimal(draw);
        var u := s.users[id].(otp := Some(code), otpExpiry := Some(now + OtpLifetime));
        Step(s.(users := s.users[id := u], outbox := s.outbox + [OtpMail(email, code)]), Reply(200, OtpSent))
  }

  /** `!user.otp || !user.otpExpiry` is false: a code is waiting to be used. */
  predicate OtpPending(u: User) {
    u.otp.Some? && u.otp.value != "" && u.otpExpiry.Some?
  }

  /** verifyOTP: back-end/Controllers/userController.js:261-319; `email` comes from the URL. */
  ghost function VerifyOtp(s: Store, email: string, otp: string, now: int): (r: Step)
    ensures r.reply.code != 200 ==> r.post == s
    ensures otp == "" ==> r.reply == Reply(400, OtpMissing)
    ensures otp != "" && !Registered(s.users, email) ==> r.reply == Reply(404, UserNotFound)
    ensures otp != "" && Registered(s.users, email) ==>
      var id := FindByEmail(s.users, email).value;
      var u := s.users[id];
      && (!OtpPending(u) ==> r.reply == Reply(401, OtpNotPending))
      && (OtpPending(u) && u.otpExpiry.value < now ==> r.reply == Reply(401, OtpExpired))
      && (OtpPending(u) && now <= u.otpExpiry.value && u.otp.value != otp ==> r.reply == Reply(400, OtpInvalid))
      && (r.reply.code == 200 <==> OtpPending(u) && now <= u.otpExpiry.value && u.otp.value == otp)
      && (r.reply.code == 200 ==>
            && r.reply == Reply(200, OtpVerified)
            && RecordSaved(s.users, r.post.users, id, u.(otp := None, otpExpiry := None))
            && r.post.sessions == s.sessions && r.post.nextId == s.nextId && r.post.outbox == s.outbox)
    ensures r.reply.code == 200 ==>
      FindByEmail(s.users, email).Some? &&
      var id := FindByEmail(s.users, email).value;
      OtpPending(s.users[id]) && s.users[id].otp == Some(otp) && now <= s.users[id].otpExpiry.value
  {
    if otp == "" then
      Step(s, Reply(400, OtpMissing))
    else match FindByEmail(s.users, email)
      case None => Step(s, Reply(404, UserNotFound))
      case Some(id) =>
        var u := s.users[id];
        if !OtpPending(u) then Step(s, Reply(401, OtpNotPending))
        else if u.otpExpiry.value < now then Step(s, Reply(401, OtpExpired))
        else if u.otp.value != otp then Step(s, Reply(400, OtpInvalid))
        else Step(s.(users := s.users[id := u.(otp := None, otpExpiry := None)]), Reply(200, OtpVerified))
  }

  /** changePassword: back-end/Controllers/userController.js:321-362; `email` comes from the URL. */
  ghost function ChangePassword(s: Store, email: string, newPassword: string, confirmPassword: string): (r: Step)
    ensures r.reply.code != 200 ==> r.post == s
    ensures newPassword == "" || confirmPassword == "" ==> r.reply == Reply(400, FieldsMissing)
    ensures newPassword != "" && confirmPassword != "" && newPassword != confirmPassword ==>
      r.reply == Reply(400, PasswordsDiffer)
    ensures newPassword != "" && newPassword == confirmPassword && !Registered(s.users, email) ==>
      r.reply == Reply(404, UserNotFound)
    ensures r.reply.code == 200 <==>
      newPassword != "" && newPassword == confirmPassword && Registered(s.users, email)
    ensures newPassword != "" && newPassword == confirmPassword && Registered(s.users, email) ==>
      var id := FindByEmail(s.users, email).value;
      && r.reply == Reply(200, PasswordChanged)
      && RecordSaved(s.users, r.post.users, id, s.users[id].(password := Hash(newPassword)))
      && r.post.sessions == s.sessions && r.post.nextId == s.nextId && r.post.outbox == s.outbox
  {
    if newPassword == "" || confirmPassword == "" then
      Step(s, Reply(400, FieldsMissing))
    else if newPassword != confirmPassword then
      Step(s, Reply(400, PasswordsDiffer))
    else match FindByEmail(s.users, email)
      case None => Step(s, Reply(404, UserNotFound))
      case Some(id) =>
        Step(s.(users := s.users[id := s.users[id].(password := Hash(newPassword))]), Reply(200, PasswordChanged))
  }

  /**
   * verifyUser exactly as written at userController.js:67-74: the 400 for a bad
   * header is sent but the handler does not return, so for a header such as
   * "Token <jwt>" it goes on to verify the second word and to mark the user
   * verified; the later 200 then fails because a reply was already sent. The
   * reply here is the first one the client receives. With no header at all,
   * `authHeader.split` throws and nothing is stored.
   */
  ghost function VerifyUserAsWritten(s: Store, header: Header, now: int): (r: Step)
    ensures header.Bearer? ==> r == VerifyUser(s, header, now)
    ensures !header.Bearer? ==> r.reply == Reply(400, HeaderInvalid)
    ensures header.NoHeader? ==> r.post == s
    ensures (header.NotBearer? && header.second.Signed? && !Expired(header.second.claims, now) &&
             header.second.claims.id in s.users) ==>
      var id := header.second.claims.id;
      && RecordSaved(s.users, r.post.users, id, s.users[id].(token := None, isVerified := true))
      && r.post.sessions == s.sessions && r.post.nextId == s.nextId && r.post.outbox == s.outbox
    ensures (header.NotBearer? &&
             !(header.second.Signed? && !Expired(header.second.claims, now) && header.second.claims.id in s.users)) ==>
      r.post == s
  {
    match header
    case NoHeader => Step(s, Reply(400, HeaderInvalid))
    case NotBearer(second) => Step(Verification(s, second, now).post, Reply(400, HeaderInvalid))
    case Bearer(presented) => Verification(s, presented, now)
  }
}
