/**
 * The account views as operations on the user table and the outgoing mail:
 * registration, email verification, the password-reset request and the
 * password-reset confirmation. Each request's effect is first given as a
 * function of the state before it; the store's methods carry it out step by
 * step and are proved to end in that state.
 */
module AccountViews {
  import opened Wrappers
  import opened PyText
  import opened Drf
  import opened AuthModel
  import opened AccountSerializers
  import opened AccountUtils

  const RegisteredMessage := "User registered successfully. Please check your email to verify your account."
  const VerifiedMessage := "Email verified successfully. You can now login."
  const InvalidActivationMessage := "Invalid activation link"
  const ResetSentMessage := "Password reset email sent. Please check your email."
  const InvalidResetMessage := "Invalid reset link"
  const ExpiredResetMessage := "Invalid or expired reset link"
  const ResetDoneMessage := "Password reset successfully. You can now login with your new password."
  const ActivateSubject := "Activate your account"
  const ResetSubject := "Reset your password"

  /** A response body: `{"message": …}`, `{"error": …}`, the serializer's errors, or an unhandled exception. */
  datatype Body = Message(text: string) | Error(text: string) | FieldErrors(errors: Errors) | ServerError

  datatype Reply = Reply(status: int, body: Body)

  /** A sent `EmailMessage`, reduced to its recipient, subject and the link it carries. */
  datatype Mail = Mail(to: string, subject: string, link: string)

  /** `settings.FRONTEND_URL`. */
  datatype Config = Config(frontendUrl: string)

  /** One request's effect: the reply, the user table and next key afterwards, and the mails sent. */
  datatype Effect = Effect(reply: Reply, users: Users, nextPk: int, mails: seq<Mail>)

  /** The mail `send_verification_email` sends to the user stored under `pk`. */
  function VerificationMail(cfg: Config, auth: Auth, pk: int, u: User): Mail {
    Mail(u.email, ActivateSubject, VerificationLink(cfg.frontendUrl, pk, auth.makeToken(pk, u)))
  }

  /** The mail `send_password_reset_email` sends to the user stored under `pk`. */
  function ResetMail(cfg: Config, auth: Auth, pk: int, u: User): Mail {
    Mail(u.email, ResetSubject, ResetLink(cfg.frontendUrl, pk, auth.makeToken(pk, u)))
  }

  /**
   * Both mails go to the user's stored address, and the route parameters of
   * their links give back the token and a uid that decodes to `pk`.
   */
  lemma {:induction false} MailsCarryUser(cfg: Config, auth: Auth, pk: int, u: User)
    requires auth.makeToken(pk, u) != [] && NoSlash(auth.makeToken(pk, u))
    ensures var v, r := VerificationMail(cfg, auth, pk, u), ResetMail(cfg, auth, pk, u);
      && v.to == u.email && r.to == u.email
      && ParseLink(cfg.frontendUrl + VerifyRoute, v.link) == Some((Uid(pk), auth.makeToken(pk, u)))
      && ParseLink(cfg.frontendUrl + ResetRoute, r.link) == Some((Uid(pk), auth.makeToken(pk, u)))
      && UidToPk(Uid(pk)) == Some(pk)
  {
    LinksRoundTrip(cfg.frontendUrl, pk, auth.makeToken(pk, u));
  }

  /**
   * The `try` block of both link views: decode the uid, then
   * `User.objects.get(pk=uid)`; None covers every exception they catch.
   */
  function LookupUid(users: Users, uidb64: string): (r: Option<int>)
    ensures r.Some? <==> UidToPk(uidb64).Some? && UidToPk(uidb64).value in users
    ensures r.Some? ==> r.value == UidToPk(uidb64).value
  {
    match UidToPk(uidb64)
    case None => None
    case Some(pk) => if pk in users then Some(pk) else None
  }

  /** The record `RegisterSerializer.create` leaves in the table: `create_user`'s user, then deactivated. */
  function NewUser(auth: Auth, reg: Registration, now: int): (u: User)
    ensures !u.isActive
  {
    User(auth.normalizeEmail(reg.email), reg.username, auth.makePassword(reg.password), false, "", "", now)
  }

  /** `RegisterView.create`. */
  function RegisterEffect(cfg: Config, auth: Auth, users: Users, nextPk: int, data: Payload, now: int): Effect {
    RegisterOutcome(cfg, auth, users, nextPk, RegisterValidation(auth, users, data), now)
  }

  /** What `RegisterView.create` does once the serializer has answered `validated`. */
  function RegisterOutcome(cfg: Config, auth: Auth, users: Users, nextPk: int, validated: Result<Registration, Errors>, now: int): Effect {
    match validated
    case Failure(errors) => Effect(Reply(HttpBadRequest, FieldErrors(errors)), users, nextPk, [])
    case Success(reg) =>
      var u := NewUser(auth, reg, now);
      if EmailTaken(users, u.email) || UsernameTaken(users, u.username) then
        Effect(Reply(HttpServerError, ServerError), users, nextPk, [])
      else
        Effect(Reply(HttpCreated, Message(RegisteredMessage)), users[nextPk := u], nextPk + 1,
               [VerificationMail(cfg, auth, nextPk, u)])
  }

  /** `VerifyEmailView.get`. */
  function VerifyEmailEffect(auth: Auth, users: Users, nextPk: int, uidb64: string, token: string): Effect {
    VerifyEmailOutcome(auth, users, nextPk, LookupUid(users, uidb64), token)
  }

  /** What `VerifyEmailView.get` does once the lookup has found the user under `found`, or no one. */
  function VerifyEmailOutcome(auth: Auth, users: Users, nextPk: int, found: Option<int>, token: string): Effect
    requires found.Some? ==> found.value in users
  {
    match found
    case Some(pk) =>
      if auth.checkToken(pk, users[pk], token) then
        Effect(Reply(HttpOk, Message(VerifiedMessage)), users[pk := users[pk].(isActive := true)], nextPk, [])
      else Effect(Reply(HttpBadRequest, Error(InvalidActivationMessage)), users, nextPk, [])
    case None => Effect(Reply(HttpBadRequest, Error(InvalidActivationMessage)), users, nextPk, [])
  }

  /**
   * `PasswordResetRequestView.post`. After validation `User.objects.get(email=…)`
   * finds at least one row; more than one raises MultipleObjectsReturned,
   * which nothing catches.
   */
  ghost function ResetRequestEffect(cfg: Config, auth: Auth, users: Users, nextPk: int, data: Payload): Effect {
    ResetRequestOutcome(cfg, auth, users, nextPk, ResetRequestValidation(auth, users, data))
  }

  /** What `PasswordResetRequestView.post` does once the serializer has answered `validated`. */
  ghost function ResetRequestOutcome(cfg: Config, auth: Auth, users: Users, nextPk: int, validated: Result<string, Errors>): Effect {
    match validated
    case Failure(errors) => Effect(Reply(HttpBadRequest, FieldErrors(errors)), users, nextPk, [])
    case Success(email) =>
      var owners := EmailOwners(users, email);
      if |owners| != 1 then Effect(Reply(HttpServerError, ServerError), users, nextPk, [])
      else
        assert (forall x :: x !in owners) ==> owners == {};
        var pk :| pk in owners;
        Effect(Reply(HttpOk, Message(ResetSentMessage)), users, nextPk, [ResetMail(cfg, auth, pk, users[pk])])
  }

  /** `PasswordResetConfirmView.post`: the uid, then the token, then the body. */
  function ResetConfirmEffect(auth: Auth, users: Users, nextPk: int, uidb64: string, token: string, data: Payload): Effect {
    ResetConfirmOutcome(auth, users, nextPk, LookupUid(users, uidb64), token, ResetConfirmValidation(auth, data))
  }

  /**
   * What `PasswordResetConfirmView.post` does given the lookup's answer and
   * the serializer's; the latter only matters once the uid and token pass.
   */
  function ResetConfirmOutcome(auth: Auth, users: Users, nextPk: int, found: Option<int>, token: string,
                               validated: Result<string, Errors>): Effect
    requires found.Some? ==> found.value in users
  {
    match found
    case None => Effect(Reply(HttpBadRequest, Error(InvalidResetMessage)), users, nextPk, [])
    case Some(pk) =>
      if !auth.checkToken(pk, users[pk], token) then
        Effect(Reply(HttpBadRequest, Error(ExpiredResetMessage)), users, nextPk, [])
      else
        match validated
        case Failure(errors) => Effect(Reply(HttpBadRequest, FieldErrors(errors)), users, nextPk, [])
        case Success(password) =>
          Effect(Reply(HttpOk, Message(ResetDoneMessage)),
                 users[pk := users[pk].(passwordHash := auth.makePassword(password))], nextPk, [])
  }

  lemma {:induction false} SingletonMember(s: set<int>, a: int, b: int)
    requires |s| == 1 && a in s && b in s
    ensures a == b
  {
    var rest := s - {a};
    assert |rest| == 0;
    assert b != a ==> b in rest;
  }

  // ---------------------------------------------------------------------
  // Registration

  /**
   * A registration that fails validation or collides in the table adds no
   * user, issues no key and sends no mail.
   */
  lemma {:induction false} RegisterFailureChangesNothing(cfg: Config, auth: Auth, users: Users, nextPk: int, data: Payload, now: int)
    ensures var e := RegisterEffect(cfg, auth, users, nextPk, data, now);
      && (e.reply.status == HttpCreated || e.reply.status == HttpBadRequest || e.reply.status == HttpServerError)
      && (e.reply.status == HttpBadRequest <==> RegisterValidation(auth, users, data).Failure?)
      && (e.reply.status != HttpCreated ==> e.users == users && e.nextPk == nextPk && e.mails == [])
  {
    RegisterOutcomeCases(cfg, auth, users, nextPk, RegisterValidation(auth, users, data), now);
  }

  /** The three answers registration gives once the serializer has answered `validated`. */
  lemma {:induction false} RegisterOutcomeCases(cfg: Config, auth: Auth, users: Users, nextPk: int, validated: Result<Registration, Errors>, now: int)
    ensures var e := RegisterOutcome(cfg, auth, users, nextPk, validated, now);
      && (e.reply.status == HttpCreated || e.reply.status == HttpBadRequest || e.reply.status == HttpServerError)
      && (e.reply.status == HttpBadRequest <==> validated.Failure?)
      && (e.reply.status != HttpCreated ==> e.users == users && e.nextPk == nextPk && e.mails == [])
  {
  }

  /**
   * A registration that succeeds adds exactly one row, under the next key
   * (fresh in a valid table), issues that key and leaves every other row as it was.
   */
  lemma {:induction false} RegisterAddsOneRow(cfg: Config, auth: Auth, users: Users, nextPk: int, data: Payload, now: int)
    requires nextPk !in users
    requires RegisterEffect(cfg, auth, users, nextPk, data, now).reply.status == HttpCreated
    ensures var e := RegisterEffect(cfg, auth, users, nextPk, data, now);
      && e.users.Keys == users.Keys + {nextPk} && e.nextPk == nextPk + 1
      && (forall pk | pk in users :: e.users[pk] == users[pk])
  {
    RegisterCreated(cfg, auth, users, nextPk, data, now);
    var u := NewUser(auth, RegisterValidation(auth, users, data).value, now);
    InsertFrame(users, nextPk, u);
    assert RegisterEffect(cfg, auth, users, nextPk, data, now).users == users[nextPk := u];
  }

  /**
   * The row a successful registration adds is inactive, carries the submitted
   * username, the normalised email and the hashed password, and is the one
   * user the single activation mail is made for.
   */
  lemma {:induction false} RegisterStoresInactiveUser(cfg: Config, auth: Auth, users: Users, nextPk: int, data: Payload, now: int)
    requires RegisterEffect(cfg, auth, users, nextPk, data, now).reply.status == HttpCreated
    ensures var e := RegisterEffect(cfg, auth, users, nextPk, data, now);
      && nextPk in e.users
      && e.users[nextPk].email == auth.normalizeEmail(Strip(data["email"]))
      && e.users[nextPk].username == Strip(data["username"])
      && e.users[nextPk].passwordHash == auth.makePassword(Strip(data["password"]))
      && !e.users[nextPk].isActive && e.users[nextPk].dateJoined == now
      && e.mails == [VerificationMail(cfg, auth, nextPk, e.users[nextPk])]
  {
    RegisterCreated(cfg, auth, users, nextPk, data, now);
  }

  lemma {:induction false} RegisterCreated(cfg: Config, auth: Auth, users: Users, nextPk: int, data: Payload, now: int)
    requires RegisterEffect(cfg, auth, users, nextPk, data, now).reply.status == HttpCreated
    ensures RegisterValidation(auth, users, data).Success?
    ensures var u := NewUser(auth, RegisterValidation(auth, users, data).value, now);
      RegisterEffect(cfg, auth, users, nextPk, data, now)
        == Effect(Reply(HttpCreated, Message(RegisteredMessage)), users[nextPk := u], nextPk + 1, [VerificationMail(cfg, auth, nextPk, u)])
  {
  }

  /**
   * The only way registration reaches the table's unique constraint: the
   * email passed `validate_email`, which compares the submitted text, but
   * its normalised form is already stored.
   */
  lemma {:induction false} RegisterServerError(cfg: Config, auth: Auth, users: Users, nextPk: int, data: Payload, now: int)
    requires RegisterEffect(cfg, auth, users, nextPk, data, now).reply.status == HttpServerError
    ensures "email" in data
    ensures !EmailTaken(users, Strip(data["email"]))
    ensures EmailTaken(users, auth.normalizeEmail(Strip(data["email"])))
  {
    var reg := RegisterValidation(auth, users, data).value;
    var u := NewUser(auth, reg, now);
    assert !UsernameTaken(users, u.username);
  }

  /** Registration keeps keys below the next one and emails and usernames unique. */
  lemma {:induction false} RegisterKeepsValid(cfg: Config, auth: Auth, users: Users, nextPk: int, data: Payload, now: int)
    requires ValidUsers(users, nextPk)
    ensures var e := RegisterEffect(cfg, auth, users, nextPk, data, now); ValidUsers(e.users, e.nextPk)
  {
    var v := RegisterValidation(auth, users, data);
    if v.Success? {
      var u := NewUser(auth, v.value, now);
      if !EmailTaken(users, u.email) && !UsernameTaken(users, u.username) {
        InsertKeepsValid(users, nextPk, u);
      }
    }
  }

  // ---------------------------------------------------------------------
  // Email verification

  /** The verification's answer once the lookup has answered `found`. */
  lemma {:induction false} VerifyOutcomeCases(auth: Auth, users: Users, nextPk: int, found: Option<int>, token: string)
    requires found.Some? ==> found.value in users
    ensures var e := VerifyEmailOutcome(auth, users, nextPk, found, token);
      && e.mails == [] && e.nextPk == nextPk
      && (e.reply == Reply(HttpOk, Message(VerifiedMessage)) <==>
            found.Some? && auth.checkToken(found.value, users[found.value], token))
      && (e.reply != Reply(HttpOk, Message(VerifiedMessage)) ==>
            e.reply == Reply(HttpBadRequest, Error(InvalidActivationMessage)) && e.users == users)
      && (e.reply == Reply(HttpOk, Message(VerifiedMessage)) ==>
            e.users == users[found.value := users[found.value].(isActive := true)])
  {
  }

  /**
   * A uid that does not decode, a key with no user and a token that fails
   * the check are answered alike, with the table unchanged; the request
   * succeeds exactly when the uid names a user whose token checks.
   */
  lemma {:induction false} VerifyEmailFailuresAlike(auth: Auth, users: Users, nextPk: int, uidb64: string, token: string)
    ensures var e := VerifyEmailEffect(auth, users, nextPk, uidb64, token);
      && e.mails == [] && e.nextPk == nextPk
      && (e.reply == Reply(HttpOk, Message(VerifiedMessage)) <==>
            UidToPk(uidb64).Some? && UidToPk(uidb64).value in users
            && auth.checkToken(UidToPk(uidb64).value, users[UidToPk(uidb64).value], token))
      && (e.reply != Reply(HttpOk, Message(VerifiedMessage)) ==>
            e.reply == Reply(HttpBadRequest, Error(InvalidActivationMessage)) && e.users == users)
  {
    VerifyOutcomeCases(auth, users, nextPk, LookupUid(users, uidb64), token);
  }

  /** On success the one row the lookup found becomes active, and nothing else changes. */
  lemma {:induction false} VerifyOutcomeActivatesOnly(auth: Auth, users: Users, nextPk: int, found: Option<int>, token: string)
    requires found.Some? ==> found.value in users
    requires VerifyEmailOutcome(auth, users, nextPk, found, token).reply.status == HttpOk
    ensures found.Some?
    ensures var e := VerifyEmailOutcome(auth, users, nextPk, found, token); var pk := found.value;
      && pk in users && e.users.Keys == users.Keys
      && (forall q | q in users && q != pk :: e.users[q] == users[q])
      && e.users[pk].isActive && e.users[pk].(isActive := users[pk].isActive) == users[pk]
  {
    VerifyOutcomeCases(auth, users, nextPk, found, token);
  }

  /** Success sets `is_active` of the one user the uid names; no other user and no other field changes. */
  lemma {:induction false} VerifyEmailActivatesOnly(auth: Auth, users: Users, nextPk: int, uidb64: string, token: string)
    requires VerifyEmailEffect(auth, users, nextPk, uidb64, token).reply.status == HttpOk
    ensures var e := VerifyEmailEffect(auth, users, nextPk, uidb64, token);
      var pk := UidToPk(uidb64).value;
      && pk in users && e.users.Keys == users.Keys
      && (forall q | q in users && q != pk :: e.users[q] == users[q])
      && e.users[pk].isActive && e.users[pk].(isActive := users[pk].isActive) == users[pk]
  {
    VerifyOutcomeActivatesOnly(auth, users, nextPk, LookupUid(users, uidb64), token);
  }

  /** Verifying an already active user with a valid token succeeds and changes nothing. */
  lemma {:induction false} VerifyEmailIdempotent(auth: Auth, users: Users, nextPk: int, uidb64: string, token: string)
    requires LookupUid(users, uidb64).Some?
    requires var pk := LookupUid(users, uidb64).value; users[pk].isActive && auth.checkToken(pk, users[pk], token)
    ensures VerifyEmailEffect(auth, users, nextPk, uidb64, token) == Effect(Reply(HttpOk, Message(VerifiedMessage)), users, nextPk, [])
  {
    VerifyActiveUnchanged(auth, users, nextPk, LookupUid(users, uidb64).value, token);
  }

  /** Activating a user who is already active rewrites the row with itself. */
  lemma {:induction false} VerifyActiveUnchanged(auth: Auth, users: Users, nextPk: int, pk: int, token: string)
    requires pk in users && users[pk].isActive && auth.checkToken(pk, users[pk], token)
    ensures VerifyEmailOutcome(auth, users, nextPk, Some(pk), token) == Effect(Reply(HttpOk, Message(VerifiedMessage)), users, nextPk, [])
  {
    assert users[pk].(isActive := true) == users[pk];
    assert users[pk := users[pk]] == users;
  }

  /** Verification never deactivates anyone and keeps the table's integrity. */
  lemma {:induction false} VerifyEmailKeepsValid(auth: Auth, users: Users, nextPk: int, uidb64: string, token: string)
    requires ValidUsers(users, nextPk)
    ensures var e := VerifyEmailEffect(auth, users, nextPk, uidb64, token);
      ValidUsers(e.users, e.nextPk) && forall pk | pk in users && users[pk].isActive :: e.users[pk].isActive
  {
    var found := LookupUid(users, uidb64);
    VerifyOutcomeCases(auth, users, nextPk, found, token);
    var e := VerifyEmailOutcome(auth, users, nextPk, found, token);
    if e.reply == Reply(HttpOk, Message(VerifiedMessage)) {
      var pk := found.value;
      UpdateKeepsValid(users, nextPk, pk, users[pk].(isActive := true));
    }
  }

  // ---------------------------------------------------------------------
  // Password-reset request

  /** The reset request's answer and mails, for any answer of the serializer. */
  lemma {:induction false} ResetRequestMails(cfg: Config, auth: Auth, users: Users, nextPk: int, validated: Result<string, Errors>)
    ensures var e := ResetRequestOutcome(cfg, auth, users, nextPk, validated);
      && e.users == users && e.nextPk == nextPk
      && (e.reply.status == HttpOk <==> |e.mails| == 1)
      && (e.reply.status != HttpOk ==> e.mails == [])
      && (e.reply.status == HttpBadRequest <==> validated.Failure?)
      && (e.reply.status == HttpOk ==>
            exists pk | pk in users && users[pk].email == validated.value :: e.mails == [ResetMail(cfg, auth, pk, users[pk])])
      && (|e.mails| == 1 ==> validated.Success? && e.mails[0].to == validated.value && e.mails[0].subject == ResetSubject)
  {
    var e := ResetRequestOutcome(cfg, auth, users, nextPk, validated);
    if e.reply.status == HttpOk {
      var owners := EmailOwners(users, validated.value);
      var pk :| pk in owners && e.mails == [ResetMail(cfg, auth, pk, users[pk])];
    }
  }

  /**
   * A reset request never writes the table. It sends no mail unless the
   * address is accepted, and then exactly one reset mail, to that address.
   */
  lemma {:induction false} ResetRequestSendsOneMail(cfg: Config, auth: Auth, users: Users, nextPk: int, data: Payload)
    ensures var e := ResetRequestEffect(cfg, auth, users, nextPk, data);
      && e.users == users && e.nextPk == nextPk
      && (e.reply.status == HttpOk <==> |e.mails| == 1)
      && (e.reply.status != HttpOk ==> e.mails == [])
      && (e.reply.status == HttpBadRequest <==> ResetRequestValidation(auth, users, data).Failure?)
      && (e.reply.status == HttpOk ==>
            var email := ResetRequestValidation(auth, users, data).value;
            exists pk | pk in users && users[pk].email == email :: e.mails == [ResetMail(cfg, auth, pk, users[pk])])
      && (|e.mails| == 1 ==> "email" in data && e.mails[0].to == Strip(data["email"]) && e.mails[0].subject == ResetSubject)
  {
    ResetRequestMails(cfg, auth, users, nextPk, ResetRequestValidation(auth, users, data));
  }

  /** On a table with unique emails the request never fails with a server error. */
  lemma {:induction false} ResetRequestNoServerError(cfg: Config, auth: Auth, users: Users, nextPk: int, data: Payload)
    requires ValidUsers(users, nextPk)
    ensures ResetRequestEffect(cfg, auth, users, nextPk, data).reply.status != HttpServerError
  {
    var v := ResetRequestValidation(auth, users, data);
    if v.Success? {
      OwnerIsUnique(users, nextPk, v.value);
    }
  }

  // ---------------------------------------------------------------------
  // Password-reset confirmation

  /** The confirmation's answer once the lookup has answered `found` and the serializer `validated`. */
  lemma {:induction false} ResetConfirmCases(auth: Auth, users: Users, nextPk: int, found: Option<int>, token: string, validated: Result<string, Errors>)
    requires found.Some? ==> found.value in users
    ensures var e := ResetConfirmOutcome(auth, users, nextPk, found, token, validated);
      && e.mails == [] && e.nextPk == nextPk
      && (found.None? ==> e.reply == Reply(HttpBadRequest, Error(InvalidResetMessage)))
      && (found.Some? ==>
            && (!auth.checkToken(found.value, users[found.value], token) ==> e.reply == Reply(HttpBadRequest, Error(ExpiredResetMessage)))
            && (auth.checkToken(found.value, users[found.value], token) && validated.Failure? ==>
                  e.reply == Reply(HttpBadRequest, FieldErrors(validated.error))))
      && (e.reply.status == HttpOk <==> found.Some? && auth.checkToken(found.value, users[found.value], token) && validated.Success?)
      && (e.reply.status != HttpOk ==> e.users == users)
      && (e.reply.status == HttpOk ==>
            e.users == users[found.value := users[found.value].(passwordHash := auth.makePassword(validated.value))])
  {
  }

  /**
   * The first failing check decides the answer: the uid, then the token,
   * then the body; every failure leaves the table as it was.
   */
  lemma {:induction false} ResetConfirmPrecedence(auth: Auth, users: Users, nextPk: int, uidb64: string, token: string, data: Payload)
    ensures var e := ResetConfirmEffect(auth, users, nextPk, uidb64, token, data);
      && e.mails == [] && e.nextPk == nextPk
      && (LookupUid(users, uidb64).None? ==> e.reply == Reply(HttpBadRequest, Error(InvalidResetMessage)))
      && (LookupUid(users, uidb64).Some? ==>
            var pk := LookupUid(users, uidb64).value;
            && (!auth.checkToken(pk, users[pk], token) ==> e.reply == Reply(HttpBadRequest, Error(ExpiredResetMessage)))
            && (auth.checkToken(pk, users[pk], token) && ResetConfirmValidation(auth, data).Failure? ==>
                  e.reply == Reply(HttpBadRequest, FieldErrors(ResetConfirmValidation(auth, data).error))))
      && (e.reply.status != HttpOk ==> e.users == users)
  {
    ResetConfirmCases(auth, users, nextPk, LookupUid(users, uidb64), token, ResetConfirmValidation(auth, data));
  }

  /** On success the one row the lookup found changes its hash, and nothing else changes. */
  lemma {:induction false} ResetOutcomeOnlyPassword(auth: Auth, users: Users, nextPk: int, found: Option<int>, token: string,
                                 validated: Result<string, Errors>)
    requires found.Some? ==> found.value in users
    requires ResetConfirmOutcome(auth, users, nextPk, found, token, validated).reply.status == HttpOk
    ensures found.Some? && validated.Success?
    ensures var e := ResetConfirmOutcome(auth, users, nextPk, found, token, validated); var pk := found.value;
      && pk in users && e.users.Keys == users.Keys
      && (forall q | q in users && q != pk :: e.users[q] == users[q])
      && e.users[pk].(passwordHash := users[pk].passwordHash) == users[pk]
      && e.users[pk].passwordHash == auth.makePassword(validated.value)
      && e.users[pk].isActive == users[pk].isActive
  {
    ResetConfirmCases(auth, users, nextPk, found, token, validated);
  }

  /**
   * Success changes only the password hash of the user the uid names; in
   * particular it does not activate an unverified account.
   */
  lemma {:induction false} ResetConfirmOnlyPassword(auth: Auth, users: Users, nextPk: int, uidb64: string, token: string, data: Payload)
    requires ResetConfirmEffect(auth, users, nextPk, uidb64, token, data).reply.status == HttpOk
    ensures var e := ResetConfirmEffect(auth, users, nextPk, uidb64, token, data);
      var pk := UidToPk(uidb64).value;
      && pk in users && e.users.Keys == users.Keys
      && (forall q | q in users && q != pk :: e.users[q] == users[q])
      && e.users[pk].(passwordHash := users[pk].passwordHash) == users[pk]
      && e.users[pk].passwordHash == auth.makePassword(Strip(data["password"]))
      && e.users[pk].isActive == users[pk].isActive
  {
    var found := LookupUid(users, uidb64);
    var v := ResetConfirmValidation(auth, data);
    ResetOutcomeOnlyPassword(auth, users, nextPk, found, token, v);
    assert v.value == Strip(data["password"]);
  }

  lemma {:induction false} ResetConfirmKeepsValid(auth: Auth, users: Users, nextPk: int, uidb64: string, token: string, data: Payload)
    requires ValidUsers(users, nextPk)
    ensures ValidUsers(ResetConfirmEffect(auth, users, nextPk, uidb64, token, data).users, nextPk)
  {
    var found := LookupUid(users, uidb64);
    var v := ResetConfirmValidation(auth, data);
    ResetConfirmCases(auth, users, nextPk, found, token, v);
    if ResetConfirmOutcome(auth, users, nextPk, found, token, v).reply.status == HttpOk {
      var pk := found.value;
      UpdateKeepsValid(users, nextPk, pk, users[pk].(passwordHash := auth.makePassword(v.value)));
    }
  }

  // ---------------------------------------------------------------------
  // The store

  /** The user table, the key the next insert receives, and every mail sent so far. */
  class AccountStore {
    var users: Users
    var nextPk: int
    var outbox: seq<Mail>

    ghost predicate Valid()
      reads this`users, this`nextPk
    {
      ValidUsers(users, nextPk)
    }

    constructor ()
      ensures Valid() && users == map[] && nextPk == 1 && outbox == []
    {
      users := map[];
      nextPk := 1;
      outbox := [];
    }

    /** The table's INSERT; the unique constraints on email and username raise IntegrityError (None). */
    method Insert(u: User) returns (pk: Option<int>)
      requires Valid()
      modifies this
      ensures Valid() && outbox == old(outbox)
      ensures pk.None? <==> EmailTaken(old(users), u.email) || UsernameTaken(old(users), u.username)
      ensures pk.None? ==> users == old(users) && nextPk == old(nextPk)
      ensures pk.Some? ==>
        pk.value == old(nextPk) && pk.value !in old(users) && users == old(users)[pk.value := u] && nextPk == old(nextPk) + 1
    {
      if EmailTaken(users, u.email) || UsernameTaken(users, u.username) {
        return None;
      }
      InsertKeepsValid(users, nextPk, u);
      pk := Some(nextPk);
      users := users[nextPk := u];
      nextPk := nextPk + 1;
    }

    /**
     * `RegisterSerializer.create`: `create_user` inserts an active user with the
     * normalised email and hashed password, which is then deactivated and saved.
     */
    method CreateUser(auth: Auth, reg: Registration, now: int) returns (pk: Option<int>)
      requires Valid()
      modifies this
      ensures Valid() && outbox == old(outbox)
      ensures var u := NewUser(auth, reg, now);
        && (pk.None? <==> EmailTaken(old(users), u.email) || UsernameTaken(old(users), u.username))
        && (pk.None? ==> users == old(users) && nextPk == old(nextPk))
        && (pk.Some? ==> pk.value == old(nextPk) && users == old(users)[pk.value := u] && nextPk == old(nextPk) + 1)
    {
      var user := User(auth.normalizeEmail(reg.email), reg.username, auth.makePassword(reg.password), true, "", "", now);
      pk := Insert(user);
      if pk.Some? {
        user := user.(isActive := false);
        users := users[pk.value := user];
      }
    }

    /** `send_verification_email(user, request)`: one mail, nothing else changes. */
    method SendVerificationEmail(cfg: Config, auth: Auth, pk: int)
      requires pk in users
      modifies this`outbox
      ensures outbox == old(outbox) + [VerificationMail(cfg, auth, pk, users[pk])]
    {
      var user := users[pk];
      var link := VerificationLink(cfg.frontendUrl, pk, auth.makeToken(pk, user));
      outbox := outbox + [Mail(user.email, ActivateSubject, link)];
    }

    /** `send_password_reset_email(user, request)`. */
    method SendPasswordResetEmail(cfg: Config, auth: Auth, pk: int)
      requires pk in users
      modifies this`outbox
      ensures outbox == old(outbox) + [ResetMail(cfg, auth, pk, users[pk])]
    {
      var user := users[pk];
      var link := ResetLink(cfg.frontendUrl, pk, auth.makeToken(pk, user));
      outbox := outbox + [Mail(user.email, ResetSubject, link)];
    }

    /** The part of `RegisterView.create` after a valid serializer: save, then mail. */
    method Admit(cfg: Config, auth: Auth, reg: Registration, now: int) returns (reply: Reply)
      requires Valid()
      modifies this
      ensures Valid()
      ensures var e := RegisterOutcome(cfg, auth, old(users), old(nextPk), Success(reg), now);
        reply == e.reply && users == e.users && nextPk == e.nextPk && outbox == old(outbox) + e.mails
    {
      ghost var users0, nextPk0, outbox0 := users, nextPk, outbox;
      ghost var u := NewUser(auth, reg, now);
      var pk := CreateUser(auth, reg, now);
      if pk.None? {
        return Reply(HttpServerError, ServerError);
      }
      assert users == users0[nextPk0 := u] && pk.value == nextPk0;
      assert users[pk.value] == u;
      SendVerificationEmail(cfg, auth, pk.value);
      assert outbox == outbox0 + [VerificationMail(cfg, auth, nextPk0, u)];
      reply := Reply(HttpCreated, Message(RegisteredMessage));
    }

    method Register(cfg: Config, auth: Auth, data: Payload, now: int) returns (reply: Reply)
      requires Valid()
      modifies this
      ensures Valid()
      ensures var e := RegisterEffect(cfg, auth, old(users), old(nextPk), data, now);
        reply == e.reply && users == e.users && nextPk == e.nextPk && outbox == old(outbox) + e.mails
    {
      var validated := RegisterValidation(auth, users, data);
      if validated.Failure? {
        return Reply(HttpBadRequest, FieldErrors(validated.error));
      }
      reply := Admit(cfg, auth, validated.value, now);
    }

    method VerifyEmail(auth: Auth, uidb64: string, token: string) returns (reply: Reply)
      modifies this`users
      ensures var e := VerifyEmailEffect(auth, old(users), nextPk, uidb64, token);
        reply == e.reply && users == e.users
      ensures old(Valid()) ==> Valid()
    {
      ghost var e := VerifyEmailEffect(auth, users, nextPk, uidb64, token);
      if Valid() {
        VerifyEmailKeepsValid(auth, users, nextPk, uidb64, token);
      }
      var pk := LookupUid(users, uidb64);
      assert e == VerifyEmailOutcome(auth, users, nextPk, pk, token);
      if pk.Some? && auth.checkToken(pk.value, users[pk.value], token) {
        var user := users[pk.value];
        user := user.(isActive := true);
        users := users[pk.value := user];
        reply := Reply(HttpOk, Message(VerifiedMessage));
      } else {
        reply := Reply(HttpBadRequest, Error(InvalidActivationMessage));
      }
    }

    /** The part of `PasswordResetRequestView.post` after a valid serializer: fetch the user, then mail. */
    method SendReset(cfg: Config, auth: Auth, email: string) returns (reply: Reply)
      modifies this`outbox
      ensures var e := ResetRequestOutcome(cfg, auth, users, nextPk, Success(email));
        reply == e.reply && outbox == old(outbox) + e.mails
    {
      var owners := EmailOwners(users, email);
      if |owners| != 1 {
        return Reply(HttpServerError, ServerError);
      }
      assert (forall x :: x !in owners) ==> owners == {};
      var pk :| pk in owners;
      ghost var e := ResetRequestOutcome(cfg, auth, users, nextPk, Success(email));
      ghost var chosen :| chosen in owners && e.mails == [ResetMail(cfg, auth, chosen, users[chosen])];
      SingletonMember(owners, pk, chosen);
      SendPasswordResetEmail(cfg, auth, pk);
      reply := Reply(HttpOk, Message(ResetSentMessage));
    }

    method PasswordResetRequest(cfg: Config, auth: Auth, data: Payload) returns (reply: Reply)
      modifies this`outbox
      ensures var e := ResetRequestEffect(cfg, auth, users, nextPk, data);
        reply == e.reply && outbox == old(outbox) + e.mails
    {
      var validated := ResetRequestValidation(auth, users, data);
      match validated
      case Failure(errors) =>
        reply := Reply(HttpBadRequest, FieldErrors(errors));
      case Success(email) =>
        reply := SendReset(cfg, auth, email);
    }

    /** `user.set_password(password)` followed by `user.save()`: only that row's hash changes. */
    method SetPassword(auth: Auth, pk: int, password: string)
      requires pk in users
      modifies this`users
      ensures users == old(users)[pk := old(users)[pk].(passwordHash := auth.makePassword(password))]
      ensures old(Valid()) ==> Valid()
    {
      if Valid() {
        UpdateKeepsValid(users, nextPk, pk, users[pk].(passwordHash := auth.makePassword(password)));
      }
      var user := users[pk];
      user := user.(passwordHash := auth.makePassword(password));
      users := users[pk := user];
    }

    method PasswordResetConfirm(auth: Auth, uidb64: string, token: string, data: Payload) returns (reply: Reply)
      modifies this`users
      ensures var e := ResetConfirmEffect(auth, old(users), nextPk, uidb64, token, data);
        reply == e.reply && users == e.users
      ensures old(Valid()) ==> Valid()
    {
      ghost var e := ResetConfirmEffect(auth, users, nextPk, uidb64, token, data);
      var pk := LookupUid(users, uidb64);
      ghost var v := ResetConfirmValidation(auth, data);
      assert e == ResetConfirmOutcome(auth, users, nextPk, pk, token, v);
      if pk.None? {
        return Reply(HttpBadRequest, Error(InvalidResetMessage));
      }
      var user := users[pk.value];
      if !auth.checkToken(pk.value, user, token) {
        return Reply(HttpBadRequest, Error(ExpiredResetMessage));
      }
      var validated := ResetConfirmValidation(auth, data);
      if validated.Failure? {
        return Reply(HttpBadRequest, FieldErrors(validated.error));
      }
      SetPassword(auth, pk.value, validated.value);
      reply := Reply(HttpOk, Message(ResetDoneMessage));
    }
  }
}
