# blog_platform_api, modelled in Dafny

The repository is a blog API built with Django and Django REST framework. It has two apps.

- **accounts.** A user registers with an email and a username. The account stays inactive until the user follows the emailed activation link. A forgotten password is reset through a second emailed link. Both links carry the user's primary key, encoded in URL-safe base 64, and a token.
- **blog.** Authors write posts. A post's slug is derived from its title on the first save. Posts are published by default. The viewset serves published posts only.

This project models that core as Dafny functions over an explicit state, plus classes whose methods carry the requests out step by step:

- the user table is a `map<int, User>`, together with the next primary key and the outbox of sent mails;
- the post table is a `map<int, PostRow>`, together with the next key.

Each view is first a function from the state before the request to an `Effect`: the reply, the new table, the next key and the mails. The methods of `AccountViews.AccountStore`, `BlogModels.Post` and `BlogViews` are proved to reach exactly that effect. The lemmas state what the views promise about the effect functions:

- the order in which errors are checked;
- a failure changes nothing;
- a success changes exactly one field of one row;
- activation is idempotent;
- the activation link's uid decodes back to the user's key;
- the slug is set once;
- drafts cannot be reached;
- the table's uniqueness constraints are kept.

The modules are:

- **Wrappers:** `Option` and `Result`.
- **PyText:** `str.strip()`, `str(int)` and `int(str)`, as Python defines them.
- **Base64Url:** Django's `urlsafe_base64_encode`, and `urlsafe_base64_decode` over CPython's lenient decoder.
- **Drf:** DRF's `CharField` cleaning, validators and error dictionaries.
- **AuthModel:** the user record, its uniqueness constraints, and the library calls the accounts app makes.
- **AccountSerializers, AccountUtils, AccountViews:** the accounts app.
- **BlogModels, BlogSerializers, BlogViews:** the blog app.

Library code whose body is not part of this model is passed in as a value. This covers:

- the token generator, password hashing, the password policy, email normalisation and `EmailValidator`, all fields of `AuthModel.Auth`;
- `slugify`, a `string -> string` parameter;
- the `IsAuthorOrReadOnly` rule, the `MayChange` parameter.

The clock (`now`) and `settings.FRONTEND_URL` (`Config`) are parameters too.

## Model

| member | source | states |
|---|---|---|
| PyText.Strip | blog_platform_api/accounts/serializers.py:10-11 | The cleaned text a `CharField` keeps: a slice of the input, everything before and after it white space, that neither starts nor ends with white space; the input itself when it holds no white space |
| PyText.PyIntOfStr | blog_platform_api/accounts/views.py:46-47 | `int(str(i)) == i` for every integer, negative ones included |
| PyText.PyIntAcceptsLeadingZeros | blog_platform_api/accounts/views.py:47 | The key lookup's `int()` accepts `"007"` as 7 |
| PyText.PyIntAcceptsSignAndSpaces | blog_platform_api/accounts/views.py:47 | `int(" +7\n")` is 7: a sign and surrounding white space are accepted |
| PyText.PyIntAcceptsOneUnderscore | blog_platform_api/accounts/views.py:47 | `int("1_0")` is 10 |
| PyText.PyIntRejectsDoubleUnderscore | blog_platform_api/accounts/views.py:47 | `int("1__0")` raises ValueError |
| PyText.PyIntRejectsNonDigitStart | blog_platform_api/accounts/views.py:47 | A literal that does not start with a sign or digit after skipping white space is refused |
| PyText.PyIntRejectsTrailingUnderscore | blog_platform_api/accounts/views.py:47 | `int("1_")` raises ValueError |
| Base64Url.Encode | blog_platform_api/accounts/utils.py:14 | The unpadded encoding: its length is never 1 mod 4, it is empty exactly for empty input, and it uses only the URL-safe alphabet |
| Base64Url.DecodeEncode | blog_platform_api/accounts/utils.py:14 | Round trip: `urlsafe_base64_decode(urlsafe_base64_encode(b)) == b` for every byte string |
| Base64Url.RunEncoded | blog_platform_api/accounts/views.py:46 | Decoding the re-padded encoding of `b` from a fresh quantum appends exactly `b` to the output so far |
| Base64Url.DecodeIsLenient | blog_platform_api/accounts/views.py:46 | The decoder also accepts text the encoder never produces: `"MQ"`, `"MQ=="` and `"MR"` all decode to the byte 49 |
| Base64Url.DecodeRejectsOneChar | blog_platform_api/accounts/views.py:46 | A single data character cannot be decoded (binascii.Error, caught as ValueError) |
| Drf.RunValidators | blog_platform_api/accounts/serializers.py:10 | A field's validators pass exactly when each of them raises no message |
| Drf.CleanChar | blog_platform_api/accounts/serializers.py:10-11 | `CharField` cleaning: a missing field is "required", blank text is "blank", and otherwise the stripped text is returned exactly when every validator passes; errors are never empty |
| Drf.CleanCharIdempotent | blog_platform_api/accounts/serializers.py:10-11 | Cleaning already-cleaned text gives the same answer |
| Drf.CleanBlankable | blog_platform_api/accounts/serializers.py:66 | A `CharField(allow_blank=True)`: blank text is accepted as the empty string; other text is accepted exactly when its validators pass, as the stripped text |
| Drf.FirstRefusalLeads | blog_platform_api/accounts/serializers.py:10 | When the first validator refuses non-blank text, cleaning fails and that validator's first message leads the list |
| Drf.Collect | blog_platform_api/accounts/serializers.py:9-15 | `serializer.errors` gains the messages of a failed field under its own name, and nothing for a field that passed |
| AuthModel.OwnerIsUnique | blog_platform_api/accounts/views.py:78 | With unique emails, a taken email belongs to exactly one user, so `User.objects.get(email=…)` finds one row |
| AuthModel.InsertKeepsValid | blog_platform_api/accounts/serializers.py:39-45 | Inserting a user whose email and username are both new, under the next key, keeps keys below the next one and emails and usernames unique |
| AuthModel.UpdateKeepsValid | blog_platform_api/accounts/views.py:52-53 | Rewriting a row without touching its email or username keeps the table valid |
| AccountSerializers.UsernamePatternIff | blog_platform_api/accounts/serializers.py:24 | `re.match(r'^[a-zA-Z0-9_-]+$', s)` holds exactly for non-empty class strings, optionally followed by one trailing newline |
| AccountSerializers.StrippedUsernamePattern | blog_platform_api/accounts/serializers.py:22-24 | On stripped text, as the field delivers it, the pattern holds exactly for non-empty class strings |
| AccountSerializers.ValidateEmail | blog_platform_api/accounts/serializers.py:17-20 | Passes, returning the value unchanged, exactly when no user has that email; fails with "A user with this email already exists." |
| AccountSerializers.ValidateUsername | blog_platform_api/accounts/serializers.py:22-30 | The format check comes first: a malformed name gets the format message even when taken; a well-formed taken name gets the exists message; otherwise the value comes back |
| AccountSerializers.PasswordMismatch | blog_platform_api/accounts/serializers.py:32-35 | No error exactly when the passwords are equal; otherwise one message under `password_confirm` only |
| AccountSerializers.EmailField | blog_platform_api/accounts/serializers.py:72 | A missing email is "required" and a blank one "blank"; otherwise it is accepted exactly when the stripped text holds no NUL and passes `EmailValidator`, and then it is that stripped text |
| AccountSerializers.EmailColumn | blog_platform_api/accounts/serializers.py:15 | The email field derived from the User model: accepted exactly when present and, once stripped, non-blank, stored by no user, free of NUL and well formed; then it is the stripped input |
| AccountSerializers.EmailColumnRefusals | blog_platform_api/accounts/serializers.py:15 | Refusals are never empty: missing is "required", blank is "blank", and a stored address gets the model's unique message first |
| AccountSerializers.RegisterEmail | blog_platform_api/accounts/serializers.py:15-20 | The email is accepted exactly when present and, once stripped, non-blank, stored by no user, free of NUL and well formed; then it is the stripped input |
| AccountSerializers.RegisterEmailRefusals | blog_platform_api/accounts/serializers.py:15-20 | The register email field refuses exactly as its column does: "required", "blank", or the unique message first for a stored address |
| AccountSerializers.EmailHookNeverRefuses | blog_platform_api/accounts/serializers.py:17-20 | `validate_email` never refuses: every address it sees is stored by no user, so "A user with this email already exists." is never raised |
| AccountSerializers.UsernameColumn | blog_platform_api/accounts/serializers.py:15 | The username field derived from the User model: accepted exactly when present and, once stripped, non-blank, stored by no user and free of NUL; then it is the stripped input |
| AccountSerializers.UsernameColumnRefusals | blog_platform_api/accounts/serializers.py:15 | Refusals are never empty: missing is "required", blank is "blank", and a stored name gets the model's unique message first |
| AccountSerializers.RegisterUsername | blog_platform_api/accounts/serializers.py:15-30 | The username is accepted exactly when present and, once stripped, non-blank, stored by no user, free of NUL and matching the pattern; then it is the stripped input |
| AccountSerializers.RegisterUsernameRefusals | blog_platform_api/accounts/serializers.py:22-30 | Missing, blank and stored names are refused as by the column, a stored one with the unique message first even when malformed; a clean, free name off the pattern gets the format message alone |
| AccountSerializers.UsernameHookSeesFreeNames | blog_platform_api/accounts/serializers.py:28-29 | `validate_username` only sees names no user has, so it refuses only with the format message |
| AccountSerializers.PasswordField | blog_platform_api/accounts/serializers.py:10 | Missing is "required", blank is "blank"; otherwise the password is accepted exactly when the stripped text passes the password policy and holds no NUL, and then it is that text |
| AccountSerializers.ConfirmField | blog_platform_api/accounts/serializers.py:11 | Missing is "required", blank is "blank"; otherwise the confirmation is accepted exactly when the stripped text holds no NUL, and then it is that text |
| AccountSerializers.RegisterCollect | blog_platform_api/accounts/serializers.py:32-35 | Given the four fields' answers: valid exactly when all four are accepted and the passwords agree, holding the accepted email, username and password; failed fields' messages under their names; `password_confirm`'s mismatch only when all four are clean |
| AccountSerializers.RegisterValidation | blog_platform_api/accounts/serializers.py:9-35 | Registration is valid exactly when all four fields are accepted and the password equals the confirmation; errors are never empty and name only the four fields |
| AccountSerializers.RegistrationIsSubmitted | blog_platform_api/accounts/serializers.py:9-15 | Accepted data is the submitted email, username and password, each stripped, and the stripped confirmation equals the password |
| AccountSerializers.RegistrationIsClean | blog_platform_api/accounts/serializers.py:15-35 | Accepted data holds an address and a username no row has, a well-formed address, a username matching the pattern, a password the policy accepts, and no NUL in any of them |
| AccountSerializers.RegisterRejectsTakenEmail | blog_platform_api/accounts/serializers.py:17-20 | Registration with an email some user already has fails, with an error under `email` |
| AccountSerializers.RegisterMismatchKeyed | blog_platform_api/accounts/serializers.py:32-35 | When every field is clean but the passwords differ, the only error is the mismatch, keyed `password_confirm` |
| AccountSerializers.ValidateResetEmail | blog_platform_api/accounts/serializers.py:74-77 | Passes exactly when some user has the email; fails with "No user found with this email address." |
| AccountSerializers.ResetRequestValidation | blog_platform_api/accounts/serializers.py:70-77 | Valid exactly when the email field is clean and the address is stored; errors are keyed `email` only |
| AccountSerializers.ResetRequestUnknownEmail | blog_platform_api/accounts/serializers.py:74-77 | A clean address nobody has is refused with exactly the "No user found" message under `email` |
| AccountSerializers.ResetConfirmValidation | blog_platform_api/accounts/serializers.py:80-88 | Valid exactly when both fields are accepted and equal; the valid data is the stripped password, which the policy accepts; errors name only the two fields and are never empty |
| AccountSerializers.ResetConfirmMismatchKeyed | blog_platform_api/accounts/serializers.py:85-88 | Two clean passwords that differ are refused with the `password_confirm` error alone |
| AccountSerializers.ProfileUsername | blog_platform_api/accounts/serializers.py:61-67 | The profile's username: absent on a PATCH keeps the stored name, absent on a PUT is "required"; a sent name is accepted exactly when, stripped, it is non-blank, NUL-free and held by no other user, and then it is the stripped text |
| AccountSerializers.ProfileName | blog_platform_api/accounts/serializers.py:61-67 | `first_name`/`last_name`: absent keeps the stored name; a sent one, blank allowed, is accepted exactly when its stripped text holds no NUL, and then it is that text |
| AccountSerializers.ApplyProfile | blog_platform_api/accounts/serializers.py:61-67 | The update is accepted exactly when the username and both names are accepted, and then only those three change, to the cleaned values; email, `date_joined`, password and activity are kept; errors name only writable fields |
| AccountSerializers.ProfileReadOnlyIgnored | blog_platform_api/accounts/serializers.py:66-67 | A body naming only `id`, `email`, `date_joined` or unknown keys leaves the profile unchanged on a PATCH and is refused with "required" under `username` on a PUT |
| AccountSerializers.ProfileIdempotent | blog_platform_api/accounts/serializers.py:61-67 | An accepted update sent again to the updated table is accepted and changes nothing more |
| AccountSerializers.ProfileKeepsValid | blog_platform_api/accounts/serializers.py:61-67 | An accepted profile update keeps emails and usernames unique |
| AccountUtils.Uid | blog_platform_api/accounts/utils.py:14 | The uid is non-empty and uses only the URL-safe alphabet (no `/`, no `=`) |
| AccountUtils.UidRoundTrip | blog_platform_api/accounts/utils.py:14 | Decoding a link's uid as the views do gives back the user's primary key |
| AccountUtils.SplitSegments | blog_platform_api/accounts/urls.py:16 | A path accepted as `<uidb64>/<token>/` is exactly its two slash-free, non-empty segments joined by `/` and closed by `/` |
| AccountUtils.SplitSegmentsOf | blog_platform_api/accounts/urls.py:16 | Two slash-free, non-empty segments are recovered exactly from `a/b/` |
| AccountUtils.LinksRoundTrip | blog_platform_api/accounts/utils.py:14-35 | The verification and reset links carry the same `<uid>/<token>/` tail, it splits back into that uid and token, and the uid decodes to the key |
| AccountViews.MailsCarryUser | blog_platform_api/accounts/utils.py:14-48 | Both mails go to the user's stored address, and their links' route parameters give back the token and a uid decoding to the key |
| AccountViews.LookupUid | blog_platform_api/accounts/views.py:45-49 | The lookup finds a user exactly when the uid decodes to a key in the table, and then it returns that key |
| AccountViews.NewUser | blog_platform_api/accounts/serializers.py:37-46 | The created user is inactive |
| AccountViews.RegisterFailureChangesNothing | blog_platform_api/accounts/views.py:29-39 | Registration answers 201, 400 or 500; 400 exactly when validation fails; anything but 201 adds no user, issues no key and sends no mail |
| AccountViews.RegisterOutcomeCases | blog_platform_api/accounts/views.py:29-39 | Given the serializer's answer: 201, 400 or 500; 400 exactly when it refused; anything but 201 changes no row, key or outbox |
| AccountViews.RegisterAddsOneRow | blog_platform_api/accounts/views.py:29-39 | A successful registration adds exactly one row, under the next key, and leaves every other row as it was |
| AccountViews.RegisterStoresInactiveUser | blog_platform_api/accounts/serializers.py:37-46 | The new row is inactive. It carries the submitted username, the normalised email, the hashed password and the request time. The one mail sent is that user's activation mail |
| AccountViews.RegisterServerError | blog_platform_api/accounts/views.py:29-32 | A 500 happens only when the submitted email is free but its normalised form is already stored |
| AccountViews.RegisterKeepsValid | blog_platform_api/accounts/views.py:29-39 | Registration keeps the table's key bound and email and username uniqueness |
| AccountViews.VerifyOutcomeCases | blog_platform_api/accounts/views.py:51-56 | Given the lookup's answer: success exactly when a user was found and the token checks, and then only that user's `is_active` is set; every failure is "Invalid activation link" with the table unchanged |
| AccountViews.VerifyEmailFailuresAlike | blog_platform_api/accounts/views.py:44-56 | A bad uid, a missing user and a failed token give the same 400 "Invalid activation link" and leave the table unchanged; success exactly when the uid names a user whose token checks |
| AccountViews.VerifyOutcomeActivatesOnly | blog_platform_api/accounts/views.py:51-53 | Given the lookup's answer, success makes that user active and changes no other user or field |
| AccountViews.VerifyEmailActivatesOnly | blog_platform_api/accounts/views.py:51-53 | Success sets `is_active` of the user the uid names; every other user and every other field stays as it was |
| AccountViews.VerifyEmailIdempotent | blog_platform_api/accounts/views.py:51-54 | Verifying an already active user with a valid token succeeds and leaves the table as it was |
| AccountViews.VerifyEmailKeepsValid | blog_platform_api/accounts/views.py:44-56 | Verification keeps the table valid and never deactivates anyone |
| AccountViews.ResetRequestMails | blog_platform_api/accounts/views.py:73-85 | Given the serializer's answer: the table never changes; 400 exactly on invalid data; 200 exactly when one mail is sent, and that mail is the reset mail of a user with the address |
| AccountViews.ResetRequestSendsOneMail | blog_platform_api/accounts/views.py:73-85 | A reset request never writes the table, sends nothing unless the address is accepted, and then sends exactly one reset mail, to the submitted (stripped) address |
| AccountViews.ResetRequestNoServerError | blog_platform_api/accounts/views.py:77-78 | With unique emails, `User.objects.get(email=…)` never raises, so the request never answers 500 |
| AccountViews.ResetConfirmCases | blog_platform_api/accounts/views.py:93-110 | Given the lookup's and the serializer's answers: no user gives "Invalid reset link", then a failed token "Invalid or expired reset link", then the field errors. 200 exactly when all three pass, and then only that user's hash changes. Any failure leaves the table unchanged |
| AccountViews.ResetConfirmPrecedence | blog_platform_api/accounts/views.py:93-104 | The first failing check (uid, then token, then body) decides the answer, and every failure leaves the table unchanged |
| AccountViews.ResetOutcomeOnlyPassword | blog_platform_api/accounts/views.py:106-108 | Given the lookup's answer, success changes only the found user's password hash, to the hash of the validated password |
| AccountViews.ResetConfirmOnlyPassword | blog_platform_api/accounts/views.py:106-108 | Success changes only the named user's password hash, to the hash of the submitted password; `is_active` is untouched, so an unverified account stays inactive |
| AccountViews.ResetConfirmKeepsValid | blog_platform_api/accounts/views.py:93-110 | A reset confirmation keeps the table valid |
| AccountViews.AccountStore.Insert | blog_platform_api/accounts/serializers.py:39-43 | The INSERT fails exactly on a taken email or username and then changes nothing; otherwise it stores the row under the next key and advances it |
| AccountViews.AccountStore.CreateUser | blog_platform_api/accounts/serializers.py:37-46 | `create_user` followed by deactivation and save leaves exactly `NewUser` under the next key, or nothing on a constraint violation |
| AccountViews.AccountStore.SendVerificationEmail | blog_platform_api/accounts/utils.py:9-27 | Appends exactly the user's activation mail to the outbox |
| AccountViews.AccountStore.SendPasswordResetEmail | blog_platform_api/accounts/utils.py:30-48 | Appends exactly the user's reset mail to the outbox |
| AccountViews.AccountStore.Admit | blog_platform_api/accounts/views.py:32-39 | After valid data: the reply, table, next key and outbox are those of the registration effect, and the table stays valid |
| AccountViews.AccountStore.Register | blog_platform_api/accounts/views.py:29-39 | The reply, table, next key and outbox are those of `RegisterEffect` |
| AccountViews.AccountStore.VerifyEmail | blog_platform_api/accounts/views.py:44-56 | The reply and table are those of `VerifyEmailEffect`, and a valid table stays valid |
| AccountViews.AccountStore.SendReset | blog_platform_api/accounts/views.py:77-85 | After valid data: the reply and outbox are those of the reset request's outcome |
| AccountViews.AccountStore.PasswordResetRequest | blog_platform_api/accounts/views.py:73-85 | The reply and outbox are those of `ResetRequestEffect`; the table is not written |
| AccountViews.AccountStore.SetPassword | blog_platform_api/accounts/views.py:107-108 | Only that user's password hash changes, to the hash of the new password, and a valid table stays valid |
| AccountViews.AccountStore.PasswordResetConfirm | blog_platform_api/accounts/views.py:93-110 | The reply and table are those of `ResetConfirmEffect`, and a valid table stays valid |
| BlogModels.NewPost | blog_platform_api/blog/models.py:8-15 | A new instance has no key and an empty slug; `is_published` is the given flag or, when none is given, the default True |
| BlogModels.SlugIsKept | blog_platform_api/blog/models.py:17-19 | A non-empty slug survives every later save, whatever the title becomes |
| BlogModels.EmptySlugRecomputed | blog_platform_api/blog/models.py:18-19 | When the title slugifies to nothing the slug stays empty and is derived again on the next save |
| BlogModels.SaveKeepsFields | blog_platform_api/blog/models.py:13-20 | `save` keeps author, title, content and `is_published`; it fills an empty slug from the title; it stamps `updated_at`, and `created_at` exactly when the save inserts, the fallback insert under a key whose row is gone included |
| BlogModels.SaveWritesOneRow | blog_platform_api/blog/models.py:11-20 | A save fails exactly when another row holds its slug, and then the table is unchanged; otherwise exactly the saved row is written under the instance's key |
| BlogModels.SaveKeepsValid | blog_platform_api/blog/models.py:11 | Every save keeps keys below the next one and slugs unique |
| BlogModels.WrittenKeepsValid | blog_platform_api/blog/models.py:11 | The table's write of a prepared instance keeps keys below the next one and slugs unique |
| BlogModels.DuplicateSlugRejected | blog_platform_api/blog/models.py:11-19 | A second post whose title slugifies to a stored slug is refused, not given another slug |
| BlogModels.PostTable.Delete | blog_platform_api/blog/views.py:6 | Deleting removes that row only and keeps the table valid |
| BlogModels.PostTable.Write | blog_platform_api/blog/models.py:11-20 | The INSERT or UPDATE under the unique slug: refused exactly on a clash, leaving the table; otherwise the row is stored under its key, or the next key on insert; a valid table stays valid |
| BlogModels.Post.Save | blog_platform_api/blog/models.py:17-20 | The instance, table and next key become those of `SaveOutcome`, and a valid table stays valid |
| BlogSerializers.ValidateTitle | blog_platform_api/blog/serializers.py:29-34 | Accepts, returning the value unchanged, exactly when 5 <= length <= 200; the short check comes first, so exactly one message is given |
| BlogSerializers.ValidateContent | blog_platform_api/blog/serializers.py:36-39 | Accepts, returning the value unchanged, exactly when length >= 10; no upper bound |
| BlogSerializers.TitleField | blog_platform_api/blog/serializers.py:29-34 | The title is accepted exactly when present with stripped length 5..200 and no NUL, and then it is the stripped text |
| BlogSerializers.ContentField | blog_platform_api/blog/serializers.py:36-39 | The content is accepted exactly when present with stripped length at least 10 and no NUL, and then it is the stripped text |
| BlogSerializers.PublishedField | blog_platform_api/blog/models.py:15 | `is_published` is optional. It is read as true or false from DRF's spellings, and any other text is refused |
| BlogSerializers.PostValidation | blog_platform_api/blog/serializers.py:5-24 | Valid exactly when every writable field is valid or, in a partial update, absent. Valid data holds the cleaned submitted fields; errors name only writable fields |
| BlogSerializers.TitleTooLongUnreachable | blog_platform_api/blog/serializers.py:32-33 | The title's errors never include "Title must not exceed 200 characters.": the column's `max_length` refuses a long title first |
| BlogSerializers.TitleTooLongMessageOfColumn | blog_platform_api/blog/models.py:10 | A title over 200 characters gets the length limit's own message (and the NUL message if needed) |
| BlogSerializers.ReadOnlyIgnored | blog_platform_api/blog/serializers.py:6-24 | Whatever the body says for `slug`, `author` or any non-writable key never changes the validated data |
| BlogSerializers.TitleIsFixed | blog_platform_api/blog/serializers.py:29-34 | Validating a validated title again accepts it unchanged |
| BlogSerializers.ContentIsFixed | blog_platform_api/blog/serializers.py:36-39 | Validating validated content again accepts it unchanged |
| BlogViews.Served | blog_platform_api/blog/views.py:7 | The served posts are exactly the published rows, unchanged |
| BlogViews.Listing | blog_platform_api/blog/models.py:26 | Lists each key exactly once, newest `created_at` first |
| BlogViews.ListShowsPublished | blog_platform_api/blog/views.py:7 | The listing holds exactly the published posts, each once, newest first, and changes nothing |
| BlogViews.DraftsUnreachable | blog_platform_api/blog/views.py:7 | A draft or missing post is not found by retrieve, update or destroy, for any caller, its author included, and the table does not change |
| BlogViews.CreateOutcomeStores | blog_platform_api/blog/views.py:11-12 | A valid create answers 201 or 500. A 500 changes nothing. A 201 stores the saved new instance under the next key, advances the key and returns that row |
| BlogViews.CreateStoresCallersPost | blog_platform_api/blog/views.py:11-12 | A created post's author is the caller, whatever the body says |
| BlogViews.CreateStoresCleanText | blog_platform_api/blog/serializers.py:29-39 | The created row holds the cleaned title and content |
| BlogViews.CreatePublishedByDefault | blog_platform_api/blog/models.py:15 | The created row is published unless the body says otherwise |
| BlogViews.CreateDerivesSlug | blog_platform_api/blog/models.py:17-19 | The created row's slug is `slugify(title)`, and both timestamps are the request time |
| BlogViews.DraftKeepsServed | blog_platform_api/blog/views.py:7 | Storing a draft under a new key leaves the served posts as they were |
| BlogViews.CreatedDraftIsHidden | blog_platform_api/blog/views.py:7-12 | A post created as a draft is stored, yet at once outside what the viewset serves |
| BlogViews.CreateFailureChangesNothing | blog_platform_api/blog/views.py:11-12 | A create that does not answer 201 leaves the table as it was; 401 exactly for an anonymous caller; 400 exactly when an authenticated caller's data is invalid |
| BlogViews.UpdateKeepsIdentity | blog_platform_api/blog/serializers.py:6-24 | A successful update rewrites only the named row. It keeps the author, `created_at` and a slug already set, and stamps `updated_at`. The title and content are the stripped submitted text when sent, else the stored values |
| BlogViews.WritesRefusedChangeNothing | blog_platform_api/blog/views.py:9 | Every refused update or destroy leaves the table as it was; only a 204 removes the post |
| BlogViews.CreateKeepsValid | blog_platform_api/blog/models.py:11 | Create keeps keys below the next one and slugs unique |
| BlogViews.UpdateKeepsValid | blog_platform_api/blog/models.py:11 | Update keeps the table valid |
| BlogViews.DestroyKeepsValid | blog_platform_api/blog/models.py:11 | Destroy keeps the table valid |
| BlogViews.Create | blog_platform_api/blog/views.py:11-12 | The reply and table are those of `CreateEffect`, and a valid table stays valid |
| BlogViews.SaveNew | blog_platform_api/blog/views.py:11-12 | After valid data: a new `Post` with the caller as author is saved, ending in `CreateOutcome` |
| BlogViews.Retrieve | blog_platform_api/blog/views.py:7 | The reply is that of `RetrieveEffect`, and nothing changes |
| BlogViews.Update | blog_platform_api/blog/views.py:6-9 | The reply and table are those of `UpdateEffect`, and a valid table stays valid |
| BlogViews.SaveExisting | blog_platform_api/blog/models.py:17-20 | The stored post, its submitted fields assigned, is saved, ending in `UpdateOutcome` |
| BlogViews.Destroy | blog_platform_api/blog/views.py:6-9 | The reply and table are those of `DestroyEffect`, and a valid table stays valid |

## Observations

These follow from the proved lemmas. They describe the code as written; none of them is claimed to be a defect.

- **Trailing newline in usernames.** The username pattern's `$` would accept one trailing newline (`UsernamePatternIff`). The field strips its input first, so that case never reaches `validate_username` (`StrippedUsernamePattern`).
- **The 500 from the unique email constraint.** `validate_email` compares the submitted address, while `create_user` stores the normalised one. An address that differs from a stored one only in the case of its domain passes validation and then violates the unique constraint. With mail delivery succeeding, this is the only way registration answers 500 (`RegisterServerError`); a failed `email.send()` is the other, and it comes after the row is stored (see "Left out").
- **Unreachable "already exists" messages.** The `email` and `username` fields derived from the User model carry a `UniqueValidator`, which runs before `validate_email` and `validate_username`. These hooks therefore never see a stored value, and their "A user with this email already exists." and "A user with this username already exists." are never raised (`EmailHookNeverRefuses`, `UsernameHookSeesFreeNames`). A username that is both malformed and taken gets the unique message, not the format one (`RegisterUsernameRefusals`).
- **Unreachable too-long title message.** `validate_title`'s "Title must not exceed 200 characters." can never be produced. The model's `CharField(max_length=200)` refuses such a title before the hook runs (`TitleTooLongUnreachable`).
- **The empty slug counts as unique.** The unique constraint applies to the empty slug too. A second post whose title slugifies to nothing can therefore not be stored. A duplicate slug answers 500, because the IntegrityError is not caught (`DuplicateSlugRejected`, `CreateOutcomeStores`).

## Left out

- Email transport and templates (`render_to_string`, `get_current_site`, `EmailMessage.send`) are I/O. A sent mail is recorded as recipient, subject and link in the outbox.
- The bodies of `default_token_generator.make_token`/`check_token`, password hashing, `validate_password`, `normalize_email`, `EmailValidator` and `slugify` are library code. Each is an uninterpreted function field or parameter, so no property of tokens (expiry, invalidation by a password change) is claimed.
- The `IsAuthorOrReadOnly` permission class is not part of this model. Its answer is the parameter `MayChange`.
- `UidToPk` handles ASCII only. `force_str` is modelled for ASCII bytes only: a decoded byte of 128 or above gives None. Python would decode valid UTF-8 and `int()` would then also accept non-ASCII digits and spaces. A uid made by the application is always ASCII.
- JWT issuance and its custom claims (`CustomTokenObtainPairSerializer`, `CustomTokenObtainPairView`) wrap a library.
- Markdown rendering (`get_rendered_content`) calls a foreign library.
- URL routing beyond the two `<uidb64>/<token>/` routes, the admin site, and `UserProfileView`'s plumbing (`get_object`, authentication) are configuration.
- The User model's field validators other than the `UniqueValidator` of `email` and `username` are not part of this model: the username validator of the default user model and the `max_length` of each column. The unique messages themselves are library text, the fields `emailUniqueMessage` and `usernameUniqueMessage` of `Auth`.
- Sending mail is assumed to succeed. In the program `email.send()` runs with `fail_silently=False`, so a transport or template error raises after `serializer.save()` has stored the inactive user, or after the reset request was validated, and the request answers 500.
- RegisterFailureChangesNothing: holds while mail delivery succeeds; a failed `email.send()` answers 500 with the new row already stored.
- RegisterServerError: names the only 500 that mail delivery does not cause; a failed send is another 500.
- ResetRequestNoServerError: `User.objects.get` never raises on a table with unique emails, but a failed `email.send()` still answers 500.
- Request bodies are JSON objects whose values are all strings (`Payload = map<string, string>`). JSON booleans, numbers, null and lists, and form-encoded or multipart bodies, are not modelled. DRF's `CharField` refuses a boolean or null and turns a number into text. On a form body an absent `BooleanField` reads as False.
- PublishedField: an absent `is_published` is None, as in a JSON body; in a form body DRF would read it as False.
- CreatePublishedByDefault: holds for JSON bodies; a form-encoded create without `is_published` stores a draft, and a form PUT without it unpublishes the post.
- The framework's exact response bodies for 401, 403 and 404 are the single constructor `Detail`.
- Pagination, search and filter backends, and database indexes are left out.
- The order the database gives posts with equal `created_at` is its own. `Listing` picks one order and proves only the newest-first property.
- The `max_length` of the slug column and title length at save time are left out: `save` does not enforce them; only the serializer does.
- Concurrency, including races between a uniqueness check and the insert, and transactions are left out; every request is one atomic step.
- `my_drafts`, `publish` and `unpublish` are not part of this model.
- Timestamps are the parameter `now`, not the database clock.
