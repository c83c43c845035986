/**
 * `PostSerializer` on input: the writable fields `title`, `content` and
 * `is_published`, their own cleaning, and the `validate_title` and
 * `validate_content` hooks. `slug`, `author` and the timestamps are read-only
 * and are never taken from the submitted body.
 */
module BlogSerializers {
  import opened Wrappers
  import opened PyText
  import opened Drf

  const TitleTooShortMessage := "Title must be at least 5 characters long."
  const TitleTooLongMessage := "Title must not exceed 200 characters."
  const ContentTooShortMessage := "Content must be at least 10 characters long."
  const InvalidBooleanMessage := "Must be a valid boolean."

  /** The title column's `max_length`, which DRF's model field also enforces. */
  const TitleMaxLength := 200

  /** `validate_title`: the short check first, then the long one; the value comes back unchanged. */
  function ValidateTitle(value: string): (r: Result<string, string>)
    ensures r.Success? <==> 5 <= |value| <= 200
    ensures r.Success? ==> r.value == value
    ensures r.Failure? ==> r.error == (if |value| < 5 then TitleTooShortMessage else TitleTooLongMessage)
  {
    if |value| < 5 then Failure(TitleTooShortMessage)
    else if |value| > 200 then Failure(TitleTooLongMessage)
    else Success(value)
  }

  /** `validate_content`: at least ten characters and no upper bound; the value comes back unchanged. */
  function ValidateContent(value: string): (r: Result<string, string>)
    ensures r.Success? <==> |value| >= 10
    ensures r.Success? ==> r.value == value
    ensures r.Failure? ==> r.error == ContentTooShortMessage
  {
    if |value| < 10 then Failure(ContentTooShortMessage) else Success(value)
  }

  /** The title's field validators, as the model's `CharField(max_length=200)` makes them. */
  function TitleValidators(): seq<Validator> {
    [MaxLength(TitleMaxLength), ProhibitNull]
  }

  /** The `title` field: cleaning, the length limit of the column, then `validate_title`. */
  function TitleField(data: Payload): (r: Result<string, seq<string>>)
    ensures r.Success? <==>
      "title" in data && 5 <= |Strip(data["title"])| <= 200 && '\0' !in Strip(data["title"])
    ensures r.Success? ==> r.value == Strip(data["title"])
  {
    if "title" in data then
      LimitThenNullPass(Strip(data["title"]), TitleMaxLength);
      Then(CleanChar(Field(data, "title"), TitleValidators()), ValidateTitle)
    else Then(CleanChar(Field(data, "title"), TitleValidators()), ValidateTitle)
  }

  /** The `content` field (`TextField`: no length limit), then `validate_content`. */
  function ContentField(data: Payload): (r: Result<string, seq<string>>)
    ensures r.Success? <==>
      "content" in data && |Strip(data["content"])| >= 10 && '\0' !in Strip(data["content"])
    ensures r.Success? ==> r.value == Strip(data["content"])
  {
    if "content" in data then
      RunOneValidator(Strip(data["content"]), ProhibitNull);
      Then(CleanChar(Field(data, "content"), [ProhibitNull]), ValidateContent)
    else Then(CleanChar(Field(data, "content"), [ProhibitNull]), ValidateContent)
  }

  /** The spellings `BooleanField` reads as true. */
  predicate IsTrueText(s: string) {
    s in {"t", "T", "y", "Y", "yes", "Yes", "YES", "true", "True", "TRUE", "on", "On", "ON", "1"}
  }

  /** The spellings `BooleanField` reads as false. */
  predicate IsFalseText(s: string) {
    s in {"f", "F", "n", "N", "no", "No", "NO", "false", "False", "FALSE", "off", "Off", "OFF", "0"}
  }

  /**
   * The `is_published` field: not required, since the column has a default;
   * None when it is absent.
   */
  function PublishedField(data: Payload): (r: Result<Option<bool>, seq<string>>)
    ensures "is_published" !in data ==> r == Success(None)
    ensures r.Success? && r.value.Some? ==>
      "is_published" in data && (r.value.value <==> IsTrueText(data["is_published"]))
    ensures r.Failure? <==>
      "is_published" in data && !IsTrueText(data["is_published"]) && !IsFalseText(data["is_published"])
  {
    if "is_published" !in data then Success(None)
    else if IsTrueText(data["is_published"]) then Success(Some(true))
    else if IsFalseText(data["is_published"]) then Success(Some(false))
    else Failure([InvalidBooleanMessage])
  }

  /** The validated data: a field left out of a partial update is None. */
  datatype PostInput = PostInput(title: Option<string>, content: Option<string>, isPublished: Option<bool>)

  /** A field of a partial update that is absent from the body is skipped, not required. */
  function Optional<T>(data: Payload, name: string, partial: bool, r: Result<T, seq<string>>): Result<Option<T>, seq<string>> {
    if partial && name !in data then Success(None)
    else match r
      case Success(v) => Success(Some(v))
      case Failure(e) => Failure(e)
  }

  /**
   * `PostSerializer(data=…, partial=…).is_valid()`: each writable field is
   * cleaned, every failing one adds its messages under its own name, and the
   * data is valid exactly when no field failed.
   */
  function PostValidation(data: Payload, partial: bool): (r: Result<PostInput, Errors>)
    ensures r.Success? <==>
      && ((partial && "title" !in data) || TitleField(data).Success?)
      && ((partial && "content" !in data) || ContentField(data).Success?)
      && PublishedField(data).Success?
    ensures r.Success? ==>
      && (r.value.title.Some? <==> "title" in data) && (r.value.title.Some? ==> r.value.title.value == Strip(data["title"]))
      && (r.value.content.Some? <==> "content" in data) && (r.value.content.Some? ==> r.value.content.value == Strip(data["content"]))
      && r.value.isPublished == PublishedField(data).value
    ensures r.Failure? ==> r.error != map[] && r.error.Keys <= {"title", "content", "is_published"}
  {
    var title := Optional(data, "title", partial, TitleField(data));
    var content := Optional(data, "content", partial, ContentField(data));
    var published := PublishedField(data);
    if title.Failure? || content.Failure? || published.Failure? then
      Failure(Collect(Collect(Collect(map[], "title", title), "content", content), "is_published", published))
    else Success(PostInput(title.value, content.value, published.value))
  }

  /** The title's field validators run in order: the length limit, then the NUL check. */
  lemma {:induction false} TitleProblems(v: string)
    ensures RunValidators(v, TitleValidators()) == Messages(MaxLength(TitleMaxLength), v) + Messages(ProhibitNull, v)
  {
    RunTwoValidators(v, MaxLength(TitleMaxLength), ProhibitNull);
  }

  /** No message a `CharField` raises on its own reads like `validate_title`'s long-title message. */
  lemma {:induction false} FieldMessageIsNotTooLong(m: string, n: nat)
    requires m == MaxLengthMessage(n) || m == NullCharactersMessage || m == RequiredMessage || m == BlankMessage
    ensures m != TitleTooLongMessage
  {
    if m == MaxLengthMessage(n) {
      assert m[1] == "Ensure this field has no more than "[1];
    }
    assert m[1] != TitleTooLongMessage[1];
  }

  /** The messages the title's own cleaning can raise. */
  lemma {:induction false} TitleCleanMessages(d: Option<string>)
    ensures var cleaned := CleanChar(d, TitleValidators());
      cleaned.Failure? ==> forall m | m in cleaned.error ::
        m == MaxLengthMessage(TitleMaxLength) || m == NullCharactersMessage || m == RequiredMessage || m == BlankMessage
  {
    if d.Some? && Strip(d.value) != [] {
      TitleProblems(Strip(d.value));
    }
  }

  /**
   * A title longer than 200 characters is refused by the column's length
   * check before `validate_title` runs, so the title's messages never include
   * "Title must not exceed 200 characters."
   */
  lemma {:induction false} TitleTooLongUnreachable(data: Payload)
    ensures TitleField(data).Failure? ==> TitleTooLongMessage !in TitleField(data).error
  {
    var cleaned := CleanChar(Field(data, "title"), TitleValidators());
    if cleaned.Failure? {
      TitleCleanMessages(Field(data, "title"));
      forall m | m in cleaned.error ensures m != TitleTooLongMessage {
        FieldMessageIsNotTooLong(m, TitleMaxLength);
      }
    } else {
      assert Messages(TitleValidators()[0], cleaned.value) == [];
    }
  }

  /** What a title over 200 characters gets instead: the length limit's own message. */
  lemma {:induction false} TitleTooLongMessageOfColumn(data: Payload)
    requires "title" in data && |Strip(data["title"])| > 200
    ensures TitleField(data) ==
      Failure([MaxLengthMessage(TitleMaxLength)] + if '\0' in Strip(data["title"]) then [NullCharactersMessage] else [])
  {
    TitleProblems(Strip(data["title"]));
  }

  /** What the body says for `slug`, `author`, the key or the timestamps never changes the validated data. */
  lemma {:induction false} ReadOnlyIgnored(data: Payload, partial: bool, key: string, value: string)
    requires key !in {"title", "content", "is_published"}
    ensures PostValidation(data[key := value], partial) == PostValidation(data, partial)
  {
    var data' := data[key := value];
    assert Field(data', "title") == Field(data, "title");
    assert Field(data', "content") == Field(data, "content");
    assert TitleField(data') == TitleField(data);
    assert ContentField(data') == ContentField(data);
    assert PublishedField(data') == PublishedField(data);
  }

  /** Validating a validated title again accepts it unchanged: the title's cleaning and hook are idempotent. */
  lemma {:induction false} TitleIsFixed(data: Payload, title: string)
    requires TitleField(data) == Success(title)
    ensures TitleField(map["title" := title]) == Success(title)
  {
    StripIdempotent(data["title"]);
    assert CleanChar(Field(map["title" := title], "title"), TitleValidators()) == CleanChar(Field(data, "title"), TitleValidators());
  }

  /** The same for the content. */
  lemma {:induction false} ContentIsFixed(data: Payload, content: string)
    requires ContentField(data) == Success(content)
    ensures ContentField(map["content" := content]) == Success(content)
  {
    StripIdempotent(data["content"]);
    assert CleanChar(Field(map["content" := content], "content"), [ProhibitNull]) == CleanChar(Field(data, "content"), [ProhibitNull]);
  }
}
