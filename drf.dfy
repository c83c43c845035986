/**
 * The slice of Django REST framework the services go through: how a
 * `CharField` (and its `EmailField` subclass) cleans one submitted value,
 * the messages it raises, and the error dictionary a serializer collects.
 */
module Drf {
  import opened Wrappers
  import opened PyText

  /** The HTTP status codes the views answer with. */
  const HttpOk := 200
  const HttpCreated := 201
  const HttpNoContent := 204
  const HttpBadRequest := 400
  const HttpUnauthorized := 401
  const HttpForbidden := 403
  const HttpNotFound := 404
  const HttpServerError := 500

  /** `serializer.errors`: each failing field mapped to its list of messages. */
  type Errors = map<string, seq<string>>

  /** The submitted body (`request.data`); every value is text. */
  type Payload = map<string, string>

  /** The value submitted for `name`, None when the key is absent. */
  function Field(data: Payload, name: string): (r: Option<string>)
    ensures r.Some? <==> name in data
    ensures r.Some? ==> r.value == data[name]
  {
    if name in data then Some(data[name]) else None
  }

  const RequiredMessage := "This field is required."
  const BlankMessage := "This field may not be blank."
  const NullCharactersMessage := "Null characters are not allowed."
  const InvalidEmailMessage := "Enter a valid email address."

  function MaxLengthMessage(n: nat): string {
    "Ensure this field has no more than " + Str(n) + " characters."
  }

  /**
   * A field validator: `MaxLengthValidator(n)`, which counts code points as
   * Python's `len` does; `ProhibitNullCharactersValidator`, which every
   * `CharField` carries; `EmailValidator`, whose notion of an address is given
   * as `isValid`; `validate_password` with the messages of the configured
   * password validators; and the `UniqueValidator` a `ModelSerializer` adds
   * to a field that is unique on the model, refusing a value already `taken`
   * with the model field's own `message`.
   */
  datatype Validator = MaxLength(limit: nat) | ProhibitNull | EmailCheck(isValid: string -> bool)
    | PasswordPolicy(problems: string -> seq<string>) | Unique(taken: set<string>, message: string)

  /** The messages `validator` raises for `v`; none when `v` passes. */
  function Messages(validator: Validator, v: string): seq<string> {
    match validator
    case MaxLength(n) => if |v| > n then [MaxLengthMessage(n)] else []
    case ProhibitNull => if '\0' in v then [NullCharactersMessage] else []
    case EmailCheck(isValid) => if isValid(v) then [] else [InvalidEmailMessage]
    case PasswordPolicy(problems) => problems(v)
    case Unique(taken, message) => if v in taken then [message] else []
  }

  /** `Field.run_validators`: every validator runs and their messages are concatenated in order. */
  function RunValidators(v: string, validators: seq<Validator>): (r: seq<string>)
    ensures r == [] <==> forall i :: 0 <= i < |validators| ==> Messages(validators[i], v) == []
    decreases |validators|
  {
    if validators == [] then [] else Messages(validators[0], v) + RunValidators(v, validators[1..])
  }

  /** One validator: its own messages. */
  lemma {:induction false} RunOneValidator(v: string, only: Validator)
    ensures RunValidators(v, [only]) == Messages(only, v)
  {
    assert [only][1..] == [];
  }

  /** Two validators: the first one's messages, then the second one's. */
  lemma {:induction false} RunTwoValidators(v: string, first: Validator, second: Validator)
    ensures RunValidators(v, [first, second]) == Messages(first, v) + Messages(second, v)
  {
    assert [first, second][1..] == [second];
    RunOneValidator(v, second);
  }

  /** Three validators, in order. */
  lemma {:induction false} RunThreeValidators(v: string, first: Validator, second: Validator, third: Validator)
    ensures RunValidators(v, [first, second, third]) == Messages(first, v) + Messages(second, v) + Messages(third, v)
  {
    assert [first, second, third][1..] == [second, third];
    RunTwoValidators(v, second, third);
  }

  /** A length limit followed by the NUL check passes exactly the text within the limit holding no NUL. */
  lemma {:induction false} LimitThenNullPass(v: string, n: nat)
    ensures RunValidators(v, [MaxLength(n), ProhibitNull]) == [] <==> |v| <= n && '\0' !in v
  {
    RunTwoValidators(v, MaxLength(n), ProhibitNull);
    LimitPasses(v, n);
    NullPasses(v);
    NoMessages(Messages(MaxLength(n), v), Messages(ProhibitNull, v));
  }

  lemma {:induction false} LimitPasses(v: string, n: nat)
    ensures Messages(MaxLength(n), v) == [] <==> |v| <= n
  {
  }

  lemma {:induction false} NullPasses(v: string)
    ensures Messages(ProhibitNull, v) == [] <==> '\0' !in v
  {
  }

  lemma {:induction false} NoMessages(first: seq<string>, second: seq<string>)
    ensures first + second == [] <==> first == [] && second == []
  {
    assert |first + second| == |first| + |second|;
  }

  /**
   * `CharField.run_validation` on the value submitted for one field (None when
   * the key is absent): a missing value is required, one that is empty after
   * `strip()` is blank, otherwise the stripped text goes through the validators.
   */
  function CleanChar(data: Option<string>, validators: seq<Validator>): (r: Result<string, seq<string>>)
    ensures r.Success? <==> data.Some? && Strip(data.value) != [] && RunValidators(Strip(data.value), validators) == []
    ensures r.Success? ==> r.value == Strip(data.value) && r.value != []
    ensures r.Failure? ==> r.error != []
    ensures data.None? ==> r == Failure([RequiredMessage])
    ensures data.Some? && Strip(data.value) == [] ==> r == Failure([BlankMessage])
  {
    match data
    case None => Failure([RequiredMessage])
    case Some(d) =>
      var v := Strip(d);
      if v == [] then Failure([BlankMessage])
      else
        var problems := RunValidators(v, validators);
        if problems == [] then Success(v) else Failure(problems)
  }

  /** When the first validator refuses non-blank text, cleaning fails and that validator's first message leads. */
  lemma {:induction false} FirstRefusalLeads(d: string, validators: seq<Validator>)
    requires Strip(d) != [] && validators != [] && Messages(validators[0], Strip(d)) != []
    ensures CleanChar(Some(d), validators).Failure?
    ensures CleanChar(Some(d), validators).error[0] == Messages(validators[0], Strip(d))[0]
  {
    var v := Strip(d);
    assert RunValidators(v, validators) == Messages(validators[0], v) + RunValidators(v, validators[1..]);
  }

  /**
   * `CharField(allow_blank=True, required=False).run_validation` on a submitted
   * value: text that is empty once stripped is accepted as the empty string
   * without running the validators; other text is cleaned as `CleanChar` does.
   */
  function CleanBlankable(d: string, validators: seq<Validator>): (r: Result<string, seq<string>>)
    ensures r.Success? <==> Strip(d) == [] || RunValidators(Strip(d), validators) == []
    ensures r.Success? ==> r.value == Strip(d)
    ensures r.Failure? ==> r.error != []
  {
    if Strip(d) == [] then Success([]) else CleanChar(Some(d), validators)
  }

  /**
   * A `validate_<field>` method run after the field's own cleaning, which DRF
   * only calls when that cleaning succeeded; its one message becomes the list.
   */
  function Then(r: Result<string, seq<string>>, check: string -> Result<string, string>): (r': Result<string, seq<string>>)
    ensures r.Failure? ==> r' == r
    ensures r.Success? ==> (r'.Success? <==> check(r.value).Success?)
    ensures r.Success? && r'.Success? ==> r'.value == check(r.value).value
    ensures r.Success? && r'.Failure? ==> r'.error == [check(r.value).error]
  {
    match r
    case Failure(e) => Failure(e)
    case Success(v) =>
      match check(v)
      case Success(w) => Success(w)
      case Failure(m) => Failure([m])
  }

  /** Records `field`'s messages in the serializer's error dictionary when it failed. */
  function Collect<T>(errors: Errors, field: string, r: Result<T, seq<string>>): (e: Errors)
    ensures r.Success? ==> e == errors
    ensures r.Failure? ==> e == errors[field := r.error] && field in e
    ensures e.Keys >= errors.Keys
  {
    if r.Failure? then errors[field := r.error] else errors
  }

  /** Cleaning never returns text that `strip()` would shorten, nor blank text. */
  lemma {:induction false} CleanCharIsStripped(data: Option<string>, validators: seq<Validator>)
    requires CleanChar(data, validators).Success?
    ensures Strip(CleanChar(data, validators).value) == CleanChar(data, validators).value
  {
    var v := CleanChar(data, validators).value;
    assert !IsUnicodeSpace(v[0]) && !IsUnicodeSpace(v[|v| - 1]);
    StripUnchanged(v);
  }

  /** Two runs of the same validators agree: cleaning already-clean text changes nothing. */
  lemma {:induction false} CleanCharIdempotent(data: Option<string>, validators: seq<Validator>)
    requires CleanChar(data, validators).Success?
    ensures CleanChar(Some(CleanChar(data, validators).value), validators) == CleanChar(data, validators)
  {
    CleanCharIsStripped(data, validators);
  }
}
