/**
 * The account serializers' checks: what registration, a reset request and a
 * reset confirmation accept, and which fields a profile update may write.
 */
module AccountSerializers {
  import opened Wrappers
  import opened PyText
  import opened Drf
  import opened AuthModel

  const EmailExistsMessage := "A user with this email already exists."
  const UsernameFormatMessage := "Username can only contain letters, numbers, underscores, and hyphens."
  const UsernameExistsMessage := "A user with this username already exists."
  const PasswordMismatchMessage := "Passwords do not match."
  const NoSuchEmailMessage := "No user found with this email address."

  /** The class `[a-zA-Z0-9_-]`. */
  predicate IsUsernameChar(c: char) {
    ('a' <= c <= 'z') || ('A' <= c <= 'Z') || ('0' <= c <= '9') || c == '_' || c == '-'
  }

  /** How many characters the greedy `[a-zA-Z0-9_-]+` consumes from the start of `s`. */
  function CountLeading(s: string): (k: nat)
    ensures k <= |s|
    ensures forall i :: 0 <= i < k ==> IsUsernameChar(s[i])
    ensures k < |s| ==> !IsUsernameChar(s[k])
    decreases |s|
  {
    if |s| > 0 && IsUsernameChar(s[0]) then 1 + CountLeading(s[1..]) else 0
  }

  /**
   * `re.match(r'^[a-zA-Z0-9_-]+$', s)`. Python's `$` holds at the end of the
   * text and also just before a newline that ends it. Backtracking cannot help:
   * a shorter run stops in front of a class character, where `$` fails.
   */
  predicate UsernamePatternMatches(s: string) {
    var k := CountLeading(s);
    k >= 1 && (k == |s| || (k == |s| - 1 && s[k] == '\n'))
  }

  lemma {:induction false} CountLeadingCovers(s: string, n: nat)
    requires n <= |s| && forall i :: 0 <= i < n ==> IsUsernameChar(s[i])
    ensures CountLeading(s) >= n
    decreases n
  {
    if n > 0 {
      CountLeadingCovers(s[1..], n - 1);
    }
  }

  /** The pattern accepts exactly the non-empty class strings, optionally followed by one `\n`. */
  lemma {:induction false} UsernamePatternIff(s: string)
    ensures UsernamePatternMatches(s) <==>
      (|s| >= 1 && forall i :: 0 <= i < |s| ==> IsUsernameChar(s[i]))
      || (|s| >= 2 && s[|s| - 1] == '\n' && forall i :: 0 <= i < |s| - 1 ==> IsUsernameChar(s[i]))
  {
    if |s| >= 1 && forall i :: 0 <= i < |s| - 1 ==> IsUsernameChar(s[i]) {
      CountLeadingCovers(s, |s| - 1);
    }
  }

  /**
   * The username reaching `validate_username` has been stripped by its
   * `CharField`, so the trailing-newline case of `$` never arises there.
   */
  lemma {:induction false} StrippedUsernamePattern(s: string)
    requires Strip(s) == s
    ensures UsernamePatternMatches(s) <==> |s| >= 1 && forall i :: 0 <= i < |s| ==> IsUsernameChar(s[i])
  {
    UsernamePatternIff(s);
    if |s| >= 1 {
      assert !IsUnicodeSpace(Strip(s)[|s| - 1]);
      assert s[|s| - 1] != '\n';
    }
  }

  /** `RegisterSerializer.validate_email`. */
  function ValidateEmail(users: Users, value: string): (r: Result<string, string>)
    ensures r.Success? <==> !EmailTaken(users, value)
    ensures r.Success? ==> r.value == value
    ensures r.Failure? ==> r.error == EmailExistsMessage
  {
    if EmailTaken(users, value) then Failure(EmailExistsMessage) else Success(value)
  }

  /** `RegisterSerializer.validate_username`: the format check comes before the uniqueness check. */
  function ValidateUsername(users: Users, value: string): (r: Result<string, string>)
    ensures r.Success? <==> UsernamePatternMatches(value) && !UsernameTaken(users, value)
    ensures r.Success? ==> r.value == value
    ensures !UsernamePatternMatches(value) ==> r == Failure(UsernameFormatMessage)
    ensures UsernamePatternMatches(value) && UsernameTaken(users, value) ==> r == Failure(UsernameExistsMessage)
  {
    if !UsernamePatternMatches(value) then Failure(UsernameFormatMessage)
    else if UsernameTaken(users, value) then Failure(UsernameExistsMessage)
    else Success(value)
  }

  /** The object-level `validate` of both password serializers: a mismatch is keyed `password_confirm`. */
  function PasswordMismatch(password: string, confirm: string): (e: Errors)
    ensures e == map[] <==> password == confirm
    ensures e != map[] ==> e.Keys == {"password_confirm"} && e["password_confirm"] == [PasswordMismatchMessage]
  {
    if password != confirm then
      var e := map["password_confirm" := [PasswordMismatchMessage]];
      assert "password_confirm" in e;
      e
    else map[]
  }

  /** The validated data `create` receives once `password_confirm` has been popped. */
  datatype Registration = Registration(email: string, username: string, password: string)

  /** A declared `EmailField` on the submitted value: the null-character check, then `EmailValidator`. */
  function EmailField(auth: Auth, d: Option<string>): (r: Result<string, seq<string>>)
    ensures match d
      case None => r == Failure([RequiredMessage])
      case Some(v) =>
        && (r.Success? <==> Strip(v) != [] && '\0' !in Strip(v) && auth.isEmail(Strip(v)))
        && (r.Success? ==> r.value == Strip(v))
        && (Strip(v) == [] ==> r == Failure([BlankMessage]))
  {
    if d.Some? then
      EmailFieldPasses(auth, Strip(d.value));
      CleanChar(d, [ProhibitNull, EmailCheck(auth.isEmail)])
    else CleanChar(d, [ProhibitNull, EmailCheck(auth.isEmail)])
  }

  lemma {:induction false} EmailFieldPasses(auth: Auth, v: string)
    ensures RunValidators(v, [ProhibitNull, EmailCheck(auth.isEmail)]) == [] <==> '\0' !in v && auth.isEmail(v)
  {
    RunTwoValidators(v, ProhibitNull, EmailCheck(auth.isEmail));
  }

  /**
   * The `email` field `RegisterSerializer` derives from the User model: its
   * `UniqueValidator` comes first, then the null-character check and
   * `EmailValidator`.
   */
  function RegisterEmailValidators(auth: Auth, users: Users): seq<Validator> {
    [Unique(StoredEmails(users), auth.emailUniqueMessage), ProhibitNull, EmailCheck(auth.isEmail)]
  }

  /** The cleaning of that field, before the hook `validate_email` runs. */
  function EmailColumn(auth: Auth, users: Users, d: Option<string>): (r: Result<string, seq<string>>)
    ensures match d
      case None => r.Failure?
      case Some(v) =>
        && (r.Success? <==> Strip(v) != [] && !EmailTaken(users, Strip(v)) && '\0' !in Strip(v) && auth.isEmail(Strip(v)))
        && (r.Success? ==> r.value == Strip(v))
  {
    if d.Some? then
      EmailColumnPasses(auth, users, Strip(d.value));
      CleanChar(d, RegisterEmailValidators(auth, users))
    else CleanChar(d, RegisterEmailValidators(auth, users))
  }

  lemma {:induction false} EmailColumnPasses(auth: Auth, users: Users, v: string)
    ensures RunValidators(v, RegisterEmailValidators(auth, users)) == [] <==>
      !EmailTaken(users, v) && '\0' !in v && auth.isEmail(v)
  {
    RunThreeValidators(v, Unique(StoredEmails(users), auth.emailUniqueMessage), ProhibitNull, EmailCheck(auth.isEmail));
  }

  /**
   * What the email column answers when it refuses: a missing or blank email
   * gets DRF's own message, and a stored one the unique message, first.
   */
  lemma {:induction false} EmailColumnRefusals(auth: Auth, users: Users, d: Option<string>)
    ensures var r := EmailColumn(auth, users, d); r.Failure? ==> r.error != []
    ensures var r := EmailColumn(auth, users, d);
      match d
      case None => r == Failure([RequiredMessage])
      case Some(v) =>
        && (Strip(v) == [] ==> r == Failure([BlankMessage]))
        && (Strip(v) != [] && EmailTaken(users, Strip(v)) ==>
              r.Failure? && r.error != [] && r.error[0] == auth.emailUniqueMessage)
  {
    if d.Some? && Strip(d.value) != [] && EmailTaken(users, Strip(d.value)) {
      assert Messages(Unique(StoredEmails(users), auth.emailUniqueMessage), Strip(d.value)) == [auth.emailUniqueMessage];
      FirstRefusalLeads(d.value, RegisterEmailValidators(auth, users));
    }
  }

  /** The `email` field of `RegisterSerializer`, then `validate_email`. */
  function RegisterEmail(auth: Auth, users: Users, d: Option<string>): (r: Result<string, seq<string>>)
    ensures match d
      case None => r.Failure?
      case Some(v) =>
        && (r.Success? <==> Strip(v) != [] && !EmailTaken(users, Strip(v)) && '\0' !in Strip(v) && auth.isEmail(Strip(v)))
        && (r.Success? ==> r.value == Strip(v))
  {
    Then(EmailColumn(auth, users, d), v => ValidateEmail(users, v))
  }

  /** The register email field refuses as its column does: the hook adds no refusal of its own. */
  lemma {:induction false} RegisterEmailRefusals(auth: Auth, users: Users, d: Option<string>)
    ensures var r := RegisterEmail(auth, users, d); r.Failure? ==> r.error != []
    ensures var r := RegisterEmail(auth, users, d);
      match d
      case None => r == Failure([RequiredMessage])
      case Some(v) =>
        && (Strip(v) == [] ==> r == Failure([BlankMessage]))
        && (Strip(v) != [] && EmailTaken(users, Strip(v)) ==>
              r.Failure? && r.error != [] && r.error[0] == auth.emailUniqueMessage)
  {
    EmailColumnRefusals(auth, users, d);
  }

  /**
   * `validate_email`'s "A user with this email already exists." is never
   * raised: the `UniqueValidator` has refused every stored email before the
   * hook runs, so the hook always passes the value on.
   */
  lemma {:induction false} EmailHookNeverRefuses(auth: Auth, users: Users, d: Option<string>)
    requires EmailColumn(auth, users, d).Success?
    ensures ValidateEmail(users, EmailColumn(auth, users, d).value).Success?
    ensures RegisterEmail(auth, users, d) == EmailColumn(auth, users, d)
  {
  }

  /** The `username` field derived from the User model: its `UniqueValidator`, then the null-character check. */
  function UsernameValidators(auth: Auth, users: Users): seq<Validator> {
    [Unique(StoredUsernames(users), auth.usernameUniqueMessage), ProhibitNull]
  }

  /** The cleaning of that field, before the hook `validate_username` runs. */
  function UsernameColumn(auth: Auth, users: Users, d: Option<string>): (r: Result<string, seq<string>>)
    ensures match d
      case None => r.Failure?
      case Some(v) =>
        && (r.Success? <==> Strip(v) != [] && !UsernameTaken(users, Strip(v)) && '\0' !in Strip(v))
        && (r.Success? ==> r.value == Strip(v))
  {
    if d.Some? then
      UsernameColumnPasses(auth, users, Strip(d.value));
      CleanChar(d, UsernameValidators(auth, users))
    else CleanChar(d, UsernameValidators(auth, users))
  }

  lemma {:induction false} UsernameColumnPasses(auth: Auth, users: Users, v: string)
    ensures RunValidators(v, UsernameValidators(auth, users)) == [] <==> !UsernameTaken(users, v) && '\0' !in v
  {
    RunTwoValidators(v, Unique(StoredUsernames(users), auth.usernameUniqueMessage), ProhibitNull);
  }

  /**
   * What the username column answers when it refuses: a missing or blank
   * name gets DRF's own message, and a stored one the unique message, first.
   */
  lemma {:induction false} UsernameColumnRefusals(auth: Auth, users: Users, d: Option<string>)
    ensures var r := UsernameColumn(auth, users, d); r.Failure? ==> r.error != []
    ensures var r := UsernameColumn(auth, users, d);
      match d
      case None => r == Failure([RequiredMessage])
      case Some(v) =>
        && (Strip(v) == [] ==> r == Failure([BlankMessage]))
        && (Strip(v) != [] && UsernameTaken(users, Strip(v)) ==>
              r.Failure? && r.error != [] && r.error[0] == auth.usernameUniqueMessage)
  {
    if d.Some? && Strip(d.value) != [] && UsernameTaken(users, Strip(d.value)) {
      assert Messages(Unique(StoredUsernames(users), auth.usernameUniqueMessage), Strip(d.value)) == [auth.usernameUniqueMessage];
      FirstRefusalLeads(d.value, UsernameValidators(auth, users));
    }
  }

  /** The `username` field, then `validate_username`. */
  function RegisterUsername(auth: Auth, users: Users, d: Option<string>): (r: Result<string, seq<string>>)
    ensures match d
      case None => r.Failure?
      case Some(v) =>
        && (r.Success? <==>
              Strip(v) != [] && !UsernameTaken(users, Strip(v)) && '\0' !in Strip(v) && UsernamePatternMatches(Strip(v)))
        && (r.Success? ==> r.value == Strip(v))
  {
    Then(UsernameColumn(auth, users, d), v => ValidateUsername(users, v))
  }

  /**
   * The register username field's refusals: those of its column, and for a
   * clean, free name that does not match the pattern, the format message alone.
   */
  lemma {:induction false} RegisterUsernameRefusals(auth: Auth, users: Users, d: Option<string>)
    ensures var r := RegisterUsername(auth, users, d); r.Failure? ==> r.error != []
    ensures var r := RegisterUsername(auth, users, d);
      match d
      case None => r == Failure([RequiredMessage])
      case Some(v) =>
        && (Strip(v) == [] ==> r == Failure([BlankMessage]))
        && (Strip(v) != [] && UsernameTaken(users, Strip(v)) ==>
              r.Failure? && r.error != [] && r.error[0] == auth.usernameUniqueMessage)
        && (Strip(v) != [] && !UsernameTaken(users, Strip(v)) && '\0' !in Strip(v) && !UsernamePatternMatches(Strip(v)) ==>
              r == Failure([UsernameFormatMessage]))
  {
    UsernameColumnRefusals(auth, users, d);
  }

  /**
   * `validate_username` never sees a stored username, so its "A user with
   * this username already exists." is never raised; a name that is both
   * malformed and taken gets the column's unique message, not the format one.
   */
  lemma {:induction false} UsernameHookSeesFreeNames(auth: Auth, users: Users, d: Option<string>)
    requires UsernameColumn(auth, users, d).Success?
    ensures var v := UsernameColumn(auth, users, d).value;
      ValidateUsername(users, v).Failure? ==> ValidateUsername(users, v).error == UsernameFormatMessage
  {
  }

  /** A password field: `validate_password` runs first, then the null-character check. */
  function PasswordField(auth: Auth, d: Option<string>): (r: Result<string, seq<string>>)
    ensures match d
      case None => r == Failure([RequiredMessage])
      case Some(v) =>
        && (r.Success? <==> Strip(v) != [] && auth.passwordProblems(Strip(v)) == [] && '\0' !in Strip(v))
        && (r.Success? ==> r.value == Strip(v))
        && (Strip(v) == [] ==> r == Failure([BlankMessage]))
  {
    if d.Some? then
      PasswordFieldPasses(auth, Strip(d.value));
      CleanChar(d, [PasswordPolicy(auth.passwordProblems), ProhibitNull])
    else CleanChar(d, [PasswordPolicy(auth.passwordProblems), ProhibitNull])
  }

  lemma {:induction false} PasswordFieldPasses(auth: Auth, v: string)
    ensures RunValidators(v, [PasswordPolicy(auth.passwordProblems), ProhibitNull]) == [] <==>
      auth.passwordProblems(v) == [] && '\0' !in v
  {
    RunTwoValidators(v, PasswordPolicy(auth.passwordProblems), ProhibitNull);
  }

  /** The `password_confirm` field, a plain `CharField`. */
  function ConfirmField(d: Option<string>): (r: Result<string, seq<string>>)
    ensures match d
      case None => r == Failure([RequiredMessage])
      case Some(v) =>
        && (r.Success? <==> Strip(v) != [] && '\0' !in Strip(v))
        && (r.Success? ==> r.value == Strip(v))
        && (Strip(v) == [] ==> r == Failure([BlankMessage]))
  {
    if d.Some? then
      RunOneValidator(Strip(d.value), ProhibitNull);
      CleanChar(d, [ProhibitNull])
    else CleanChar(d, [ProhibitNull])
  }

  const RegisterFields: set<string> := {"email", "username", "password", "password_confirm"}

  /**
   * The end of `RegisterSerializer.is_valid()` once each field is cleaned:
   * every failing field's messages are collected under its name, and only
   * when all four are clean does `validate` compare the two passwords.
   */
  function RegisterCollect(email: Result<string, seq<string>>, username: Result<string, seq<string>>,
                           password: Result<string, seq<string>>, confirm: Result<string, seq<string>>): (r: Result<Registration, Errors>)
    ensures r.Success? <==>
      email.Success? && username.Success? && password.Success? && confirm.Success? && password.value == confirm.value
    ensures r.Success? ==> r.value == Registration(email.value, username.value, password.value)
    ensures r.Failure? ==> r.error != map[] && r.error.Keys <= RegisterFields
    ensures r.Failure? && password.Success? && confirm.Success? && (email.Failure? || username.Failure?) ==>
      "password_confirm" !in r.error
    ensures email.Success? && username.Success? && password.Success? && confirm.Success? && password.value != confirm.value ==>
      r == Failure(map["password_confirm" := [PasswordMismatchMessage]])
  {
    if email.Failure? || username.Failure? || password.Failure? || confirm.Failure? then
      Failure(Collect(Collect(Collect(Collect(map[], "email", email), "username", username), "password", password), "password_confirm", confirm))
    else
      var mismatch := PasswordMismatch(password.value, confirm.value);
      if mismatch != map[] then Failure(mismatch)
      else Success(Registration(email.value, username.value, password.value))
  }

  /** `RegisterSerializer.is_valid()`: the four fields' cleaning, then the collection above. */
  function RegisterValidation(auth: Auth, users: Users, data: Payload): (r: Result<Registration, Errors>)
    ensures r.Success? <==>
      && RegisterEmail(auth, users, Field(data, "email")).Success?
      && RegisterUsername(auth, users, Field(data, "username")).Success?
      && PasswordField(auth, Field(data, "password")).Success?
      && ConfirmField(Field(data, "password_confirm")).Success?
      && PasswordField(auth, Field(data, "password")).value == ConfirmField(Field(data, "password_confirm")).value
    ensures r.Failure? ==> r.error != map[] && r.error.Keys <= RegisterFields
  {
    RegisterCollect(RegisterEmail(auth, users, Field(data, "email")), RegisterUsername(auth, users, Field(data, "username")),
                    PasswordField(auth, Field(data, "password")), ConfirmField(Field(data, "password_confirm")))
  }

  /**
   * An accepted registration carries the submitted email, username and
   * password, each stripped, and the confirmation equals the password.
   */
  lemma {:induction false} RegistrationIsSubmitted(auth: Auth, users: Users, data: Payload, reg: Registration)
    requires RegisterValidation(auth, users, data) == Success(reg)
    ensures "email" in data && "username" in data && "password" in data && "password_confirm" in data
    ensures reg == Registration(Strip(data["email"]), Strip(data["username"]), Strip(data["password"]))
    ensures Strip(data["password_confirm"]) == Strip(data["password"])
  {
  }

  /**
   * What an accepted registration holds: an address and a username no row
   * has, the address well formed, the username of the allowed characters,
   * and a password the password validators accept.
   */
  lemma {:induction false} RegistrationIsClean(auth: Auth, users: Users, data: Payload, reg: Registration)
    requires RegisterValidation(auth, users, data) == Success(reg)
    ensures && !EmailTaken(users, reg.email) && auth.isEmail(reg.email) && '\0' !in reg.email
      && UsernamePatternMatches(reg.username) && !UsernameTaken(users, reg.username) && '\0' !in reg.username
      && auth.passwordProblems(reg.password) == [] && '\0' !in reg.password
  {
  }

  /** An email equal to a stored one, once stripped, is refused under the `email` key. */
  lemma {:induction false} RegisterRejectsTakenEmail(auth: Auth, users: Users, data: Payload)
    requires "email" in data && EmailTaken(users, Strip(data["email"]))
    ensures RegisterValidation(auth, users, data).Failure?
    ensures "email" in RegisterValidation(auth, users, data).error
  {
    assert RegisterEmail(auth, users, Field(data, "email")).Failure?;
  }

  /**
   * When every field is clean but the passwords differ, the only error is the
   * mismatch, keyed `password_confirm`.
   */
  lemma {:induction false} RegisterMismatchKeyed(auth: Auth, users: Users, data: Payload)
    requires RegisterEmail(auth, users, Field(data, "email")).Success?
    requires RegisterUsername(auth, users, Field(data, "username")).Success?
    requires PasswordField(auth, Field(data, "password")).Success? && ConfirmField(Field(data, "password_confirm")).Success?
    requires PasswordField(auth, Field(data, "password")).value != ConfirmField(Field(data, "password_confirm")).value
    ensures RegisterValidation(auth, users, data) == Failure(map["password_confirm" := [PasswordMismatchMessage]])
  {
  }

  /** `PasswordResetRequestSerializer.validate_email`. */
  function ValidateResetEmail(users: Users, value: string): (r: Result<string, string>)
    ensures r.Success? <==> EmailTaken(users, value)
    ensures r.Success? ==> r.value == value
    ensures r.Failure? ==> r.error == NoSuchEmailMessage
  {
    if !EmailTaken(users, value) then Failure(NoSuchEmailMessage) else Success(value)
  }

  /** `PasswordResetRequestSerializer.is_valid()`: a declared `EmailField` and its `validate_email`. */
  function ResetRequestValidation(auth: Auth, users: Users, data: Payload): (r: Result<string, Errors>)
    ensures r.Success? ==> "email" in data && r.value == Strip(data["email"]) && auth.isEmail(r.value)
    ensures r.Success? <==>
      EmailField(auth, Field(data, "email")).Success? && EmailTaken(users, EmailField(auth, Field(data, "email")).value)
    ensures r.Failure? ==> r.error.Keys == {"email"}
  {
    var email := Then(EmailField(auth, Field(data, "email")), v => ValidateResetEmail(users, v));
    match email
    case Failure(e) => Failure(map["email" := e])
    case Success(v) => Success(v)
  }

  /** An address held by nobody is refused with the reset serializer's own message. */
  lemma {:induction false} ResetRequestUnknownEmail(auth: Auth, users: Users, data: Payload)
    requires EmailField(auth, Field(data, "email")).Success?
    requires !EmailTaken(users, EmailField(auth, Field(data, "email")).value)
    ensures ResetRequestValidation(auth, users, data) == Failure(map["email" := [NoSuchEmailMessage]])
  {
  }

  /** `PasswordResetConfirmSerializer.is_valid()`: two password fields, then `validate`. */
  function ResetConfirmValidation(auth: Auth, data: Payload): (r: Result<string, Errors>)
    ensures r.Success? <==>
      && PasswordField(auth, Field(data, "password")).Success?
      && ConfirmField(Field(data, "password_confirm")).Success?
      && PasswordField(auth, Field(data, "password")).value == ConfirmField(Field(data, "password_confirm")).value
    ensures r.Failure? ==> r.error != map[] && r.error.Keys <= {"password", "password_confirm"}
    ensures r.Success? ==>
      && "password" in data && r.value == Strip(data["password"])
      && "password_confirm" in data && r.value == Strip(data["password_confirm"])
      && auth.passwordProblems(r.value) == []
  {
    var password, confirm := PasswordField(auth, Field(data, "password")), ConfirmField(Field(data, "password_confirm"));
    if password.Failure? || confirm.Failure? then
      Failure(Collect(Collect(map[], "password", password), "password_confirm", confirm))
    else
      var mismatch := PasswordMismatch(password.value, confirm.value);
      if mismatch != map[] then Failure(mismatch) else Success(password.value)
  }

  /** Two clean passwords that differ are refused with the `password_confirm` error alone. */
  lemma {:induction false} ResetConfirmMismatchKeyed(auth: Auth, data: Payload)
    requires PasswordField(auth, Field(data, "password")).Success? && ConfirmField(Field(data, "password_confirm")).Success?
    requires PasswordField(auth, Field(data, "password")).value != ConfirmField(Field(data, "password_confirm")).value
    ensures ResetConfirmValidation(auth, data) == Failure(map["password_confirm" := [PasswordMismatchMessage]])
  {
  }

  /** The fields `UserProfileSerializer` writes; `id`, `email` and `date_joined` are read-only. */
  const ProfileWritable: set<string> := {"username", "first_name", "last_name"}

  /**
   * The profile's `username` field: the same model field as registration's,
   * required unless the update is partial, whose `UniqueValidator` excludes
   * the instance being updated.
   */
  function ProfileUsername(auth: Auth, users: Users, pk: int, d: Option<string>, partial: bool): (r: Result<string, seq<string>>)
    requires pk in users
    ensures match d
      case None => r == if partial then Success(users[pk].username) else Failure([RequiredMessage])
      case Some(v) =>
        && (r.Success? <==> Strip(v) != [] && !UsernameTaken(users - {pk}, Strip(v)) && '\0' !in Strip(v))
        && (r.Success? ==> r.value == Strip(v))
        && (Strip(v) == [] ==> r == Failure([BlankMessage]))
  {
    if partial && d.None? then Success(users[pk].username)
    else
      UsernameColumnRefusals(auth, users - {pk}, d);
      UsernameColumn(auth, users - {pk}, d)
  }

  /**
   * `first_name` or `last_name`: optional and allowed blank, as the User
   * model declares them; a submitted value is stripped, an absent one kept.
   */
  function ProfileName(d: Option<string>, current: string): (r: Result<string, seq<string>>)
    ensures match d
      case None => r == Success(current)
      case Some(v) => (r.Success? <==> '\0' !in Strip(v)) && (r.Success? ==> r.value == Strip(v))
  {
    match d
    case None => Success(current)
    case Some(v) =>
      RunOneValidator(Strip(v), ProhibitNull);
      CleanBlankable(v, [ProhibitNull])
  }

  /**
   * `UserProfileSerializer` on a PUT (`partial` false) or a PATCH: the
   * writable fields are cleaned, and when all are clean they are applied to
   * the record; the read-only fields and unknown keys are ignored.
   */
  function ApplyProfile(auth: Auth, users: Users, pk: int, data: Payload, partial: bool): (r: Result<User, Errors>)
    requires pk in users
    ensures r.Success? <==>
      && ProfileUsername(auth, users, pk, Field(data, "username"), partial).Success?
      && ProfileName(Field(data, "first_name"), users[pk].firstName).Success?
      && ProfileName(Field(data, "last_name"), users[pk].lastName).Success?
    ensures r.Failure? ==> r.error != map[] && r.error.Keys <= ProfileWritable
    ensures r.Success? ==>
      && r.value.email == users[pk].email && r.value.dateJoined == users[pk].dateJoined
      && r.value.passwordHash == users[pk].passwordHash && r.value.isActive == users[pk].isActive
      && r.value.username == ProfileUsername(auth, users, pk, Field(data, "username"), partial).value
      && r.value.firstName == ProfileName(Field(data, "first_name"), users[pk].firstName).value
      && r.value.lastName == ProfileName(Field(data, "last_name"), users[pk].lastName).value
  {
    var u := users[pk];
    var username := ProfileUsername(auth, users, pk, Field(data, "username"), partial);
    var first, last := ProfileName(Field(data, "first_name"), u.firstName), ProfileName(Field(data, "last_name"), u.lastName);
    if username.Failure? || first.Failure? || last.Failure? then
      Failure(Collect(Collect(Collect(map[], "username", username), "first_name", first), "last_name", last))
    else Success(u.(username := username.value, firstName := first.value, lastName := last.value))
  }

  /**
   * A body that names only read-only or unknown fields leaves the profile as
   * it was on a PATCH, and is refused on a PUT for want of a username.
   */
  lemma {:induction false} ProfileReadOnlyIgnored(auth: Auth, users: Users, pk: int, data: Payload)
    requires pk in users
    requires forall k | k in data :: k !in ProfileWritable
    ensures ApplyProfile(auth, users, pk, data, true) == Success(users[pk])
    ensures ApplyProfile(auth, users, pk, data, false) == Failure(map["username" := [RequiredMessage]])
  {
    assert "username" !in data && "first_name" !in data && "last_name" !in data;
  }

  /** An accepted update, sent again to the updated table, is accepted and changes nothing more. */
  lemma {:induction false} ProfileIdempotent(auth: Auth, users: Users, pk: int, data: Payload, partial: bool)
    requires pk in users && ApplyProfile(auth, users, pk, data, partial).Success?
    ensures var u := ApplyProfile(auth, users, pk, data, partial).value;
      ApplyProfile(auth, users[pk := u], pk, data, partial) == Success(u)
  {
    var u := ApplyProfile(auth, users, pk, data, partial).value;
    ProfileUsernameAgain(auth, users, pk, Field(data, "username"), partial, u);
    ProfileNameAgain(Field(data, "first_name"), users[pk].firstName);
    ProfileNameAgain(Field(data, "last_name"), users[pk].lastName);
  }

  /** The username field answers alike once the row holds the name it accepted. */
  lemma {:induction false} ProfileUsernameAgain(auth: Auth, users: Users, pk: int, d: Option<string>, partial: bool, u: User)
    requires pk in users && ProfileUsername(auth, users, pk, d, partial).Success?
    requires u.username == ProfileUsername(auth, users, pk, d, partial).value
    ensures ProfileUsername(auth, users[pk := u], pk, d, partial) == ProfileUsername(auth, users, pk, d, partial)
  {
    assert users[pk := u] - {pk} == users - {pk};
  }

  /** A name field answers alike once the row holds the name it accepted. */
  lemma {:induction false} ProfileNameAgain(d: Option<string>, current: string)
    requires ProfileName(d, current).Success?
    ensures ProfileName(d, ProfileName(d, current).value) == ProfileName(d, current)
  {
  }

  /** An accepted profile update keeps emails and usernames unique. */
  lemma {:induction false} ProfileKeepsValid(auth: Auth, users: Users, nextPk: int, pk: int, data: Payload, partial: bool)
    requires ValidUsers(users, nextPk) && pk in users
    requires ApplyProfile(auth, users, pk, data, partial).Success?
    ensures ValidUsers(users[pk := ApplyProfile(auth, users, pk, data, partial).value], nextPk)
  {
    var u := ApplyProfile(auth, users, pk, data, partial).value;
    ProfileNameIsFree(auth, users, nextPk, pk, Field(data, "username"), partial);
    UsernameChangeKeepsValid(users, nextPk, pk, u);
  }

  /** The username an accepted profile update leaves is held by no other user. */
  lemma {:induction false} ProfileNameIsFree(auth: Auth, users: Users, nextPk: int, pk: int, d: Option<string>, partial: bool)
    requires ValidUsers(users, nextPk) && pk in users
    requires ProfileUsername(auth, users, pk, d, partial).Success?
    ensures !UsernameTaken(users - {pk}, ProfileUsername(auth, users, pk, d, partial).value)
  {
    var name := ProfileUsername(auth, users, pk, d, partial).value;
    if d.None? {
      forall q | q in users - {pk} ensures users[q].username != name {
        assert users[pk].username == name;
      }
    }
  }

  /** Rewriting a row to a username no other row holds, its email kept, keeps the integrity. */
  lemma {:induction false} UsernameChangeKeepsValid(users: Users, nextPk: int, pk: int, u: User)
    requires ValidUsers(users, nextPk) && pk in users
    requires u.email == users[pk].email && !UsernameTaken(users - {pk}, u.username)
    ensures ValidUsers(users[pk := u], nextPk)
  {
    var users' := users[pk := u];
    forall q | q in users && q != pk ensures users[q].username != u.username {
      assert q in users - {pk};
    }
    forall p, q | p in users' && q in users' && users'[p].username == users'[q].username ensures p == q {
    }
    forall p, q | p in users' && q in users' && users'[p].email == users'[q].email ensures p == q {
    }
  }
}
