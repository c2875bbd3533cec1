/** validationMiddleware.js: `validateRegistration`, the middleware in
    front of `registerUser`. A field that is missing from the body is the
    empty string here: both are falsy, and every check treats them alike. */
module ValidationMiddleware {
  import opened Common
  import opened Text
  import opened Patterns
  import opened Schema

  /** The fields of `req.body` the middleware reads and rewrites. */
  class RegistrationBody {
    var name: string
    var email: string
    var password: string
    var passwordConfirmation: string

    constructor (name: string, email: string, password: string, passwordConfirmation: string)
      ensures this.name == name && this.email == email
      ensures this.password == password && this.passwordConfirmation == passwordConfirmation
    {
      this.name := name;
      this.email := email;
      this.password := password;
      this.passwordConfirmation := passwordConfirmation;
    }

    /** `req.body.name = name; req.body.email = email;` */
    method Normalize(name: string, email: string)
      modifies this
      ensures this.name == name && this.email == email
      ensures password == old(password) && passwordConfirmation == old(passwordConfirmation)
    {
      this.name := name;
      this.email := email;
    }
  }

  /** A middleware either calls `next()` or answers the request itself. */
  datatype Outcome = CallNext | Respond(status: int, message: string)

  const NameRequired := "Name is required"
  const NameTooLong := "Name cannot exceed 255 characters"
  const EmailRequired := "Email is required"
  const EmailInvalid := "Please enter a valid email"
  const PasswordRequired := "Password is required"
  const PasswordTooShort := "Password must be at least 8 characters"
  const ConfirmationRequired := "Password confirmation is required"
  const PasswordsDiffer := "Passwords do not match"

  /** The name check, on the trimmed name `n`. */
  function NameCheck(n: string): seq<string> {
    if n == "" then [NameRequired]
    else if Utf16Length(n) > NameMaxLength then [NameTooLong]
    else []
  }

  function NameErrors(name: string): seq<string> {
    NameCheck(Trim(name))
  }

  /** The email check, on the trimmed email `e`. */
  function EmailCheck(e: string): seq<string> {
    if e == "" then [EmailRequired]
    else if !EmailPattern(e) then [EmailInvalid]
    else []
  }

  function EmailErrors(email: string): seq<string> {
    EmailCheck(Trim(email))
  }

  /** The password check; the password is not trimmed. */
  function PasswordErrors(password: string): seq<string> {
    if password == "" then [PasswordRequired]
    else if Utf16Length(password) < PasswordMinLength then [PasswordTooShort]
    else []
  }

  function ConfirmationErrors(password: string, confirmation: string): seq<string> {
    if confirmation == "" then [ConfirmationRequired]
    else if password != confirmation then [PasswordsDiffer]
    else []
  }

  /** The `errors` array once all four checks have run. */
  function RegistrationErrors(name: string, email: string, password: string, confirmation: string): seq<string> {
    NameErrors(name) + EmailErrors(email) + PasswordErrors(password) + ConfirmationErrors(password, confirmation)
  }

  /** The field a message belongs to, in the order the checks run. */
  function FieldOf(message: string): (rank: int)
    ensures -1 <= rank <= 3
  {
    if message == NameRequired || message == NameTooLong then 0
    else if message == EmailRequired || message == EmailInvalid then 1
    else if message == PasswordRequired || message == PasswordTooShort then 2
    else if message == ConfirmationRequired || message == PasswordsDiffer then 3
    else -1
  }

  /** Every message of `errs` belongs to field `k`, and there is at most one. */
  predicate OneFieldErrors(errs: seq<string>, k: int) {
    |errs| <= 1 && forall i :: 0 <= i < |errs| ==> FieldOf(errs[i]) == k
  }

  lemma MessageFields()
    ensures FieldOf(NameRequired) == 0 && FieldOf(NameTooLong) == 0
    ensures FieldOf(EmailRequired) == 1 && FieldOf(EmailInvalid) == 1
    ensures FieldOf(PasswordRequired) == 2 && FieldOf(PasswordTooShort) == 2
    ensures FieldOf(ConfirmationRequired) == 3 && FieldOf(PasswordsDiffer) == 3
  {
    assert |NameRequired| == 16 && |NameTooLong| == 33;
    assert |EmailRequired| == 17 && |EmailInvalid| == 26;
    assert |PasswordRequired| == 20 && |PasswordTooShort| == 38;
    assert |ConfirmationRequired| == 33 && |PasswordsDiffer| == 22;
    assert NameTooLong != ConfirmationRequired by { assert NameTooLong[0] != ConfirmationRequired[0]; }
  }

  lemma NameCheckField(n: string)
    ensures OneFieldErrors(NameCheck(n), 0)
  {
    MessageFields();
    if n == "" {
      assert NameCheck(n) == [NameRequired];
    } else if Utf16Length(n) > NameMaxLength {
      assert NameCheck(n) == [NameTooLong];
    } else {
      assert NameCheck(n) == [];
    }
  }

  lemma NameErrorsField(name: string)
    ensures OneFieldErrors(NameErrors(name), 0)
  {
    NameCheckField(Trim(name));
  }

  lemma EmailCheckField(e: string)
    ensures OneFieldErrors(EmailCheck(e), 1)
  {
    MessageFields();
    if e == "" {
      assert EmailCheck(e) == [EmailRequired];
    } else if !EmailPattern(e) {
      assert EmailCheck(e) == [EmailInvalid];
    } else {
      assert EmailCheck(e) == [];
    }
  }

  lemma EmailErrorsField(email: string)
    ensures OneFieldErrors(EmailErrors(email), 1)
  {
    EmailCheckField(Trim(email));
  }

  lemma PasswordErrorsField(password: string)
    ensures OneFieldErrors(PasswordErrors(password), 2)
  {
    MessageFields();
  }

  lemma ConfirmationErrorsField(password: string, confirmation: string)
    ensures OneFieldErrors(ConfirmationErrors(password, confirmation), 3)
  {
    MessageFields();
  }

  lemma FieldsOfChecks(name: string, email: string, password: string, confirmation: string)
    ensures OneFieldErrors(NameErrors(name), 0)
    ensures OneFieldErrors(EmailErrors(email), 1)
    ensures OneFieldErrors(PasswordErrors(password), 2)
    ensures OneFieldErrors(ConfirmationErrors(password, confirmation), 3)
  {
    NameErrorsField(name);
    EmailErrorsField(email);
    PasswordErrorsField(password);
    ConfirmationErrorsField(password, confirmation);
  }

  /** Strictly increasing field ranks, all of them in `0 .. k - 1`. */
  predicate OrderedBelow(errs: seq<string>, k: int) {
    && (forall i :: 0 <= i < |errs| ==> 0 <= FieldOf(errs[i]) < k)
    && (forall i, j :: 0 <= i < j < |errs| ==> FieldOf(errs[i]) < FieldOf(errs[j]))
  }

  lemma AppendField(xs: seq<string>, ys: seq<string>, k: int)
    requires OrderedBelow(xs, k) && OneFieldErrors(ys, k) && k >= 0
    ensures OrderedBelow(xs + ys, k + 1) && |xs + ys| <= |xs| + 1
  {
    var zs := xs + ys;
    forall i, j | 0 <= i < j < |zs| ensures FieldOf(zs[i]) < FieldOf(zs[j]) {
      if j < |xs| {
        assert zs[i] == xs[i] && zs[j] == xs[j];
      } else {
        assert zs[i] == xs[i] && zs[j] == ys[j - |xs|];
      }
    }
  }

  /** The errors come in field order (name, email, password,
      confirmation), with at most one error per field. */
  lemma ErrorsInFieldOrder(name: string, email: string, password: string, confirmation: string)
    ensures var errs := RegistrationErrors(name, email, password, confirmation);
            |errs| <= 4 &&
            (forall i :: 0 <= i < |errs| ==> 0 <= FieldOf(errs[i]) <= 3) &&
            (forall i, j :: 0 <= i < j < |errs| ==> FieldOf(errs[i]) < FieldOf(errs[j]))
  {
    var a, b, c, d := NameErrors(name), EmailErrors(email), PasswordErrors(password), ConfirmationErrors(password, confirmation);
    FieldsOfChecks(name, email, password, confirmation);
    AppendField([], a, 0);
    assert [] + a == a;
    AppendField(a, b, 1);
    AppendField(a + b, c, 2);
    AppendField(a + b + c, d, 3);
  }

  lemma NotInOtherFields(m: string, k: int, xs: seq<string>, j: int)
    requires FieldOf(m) == k && OneFieldErrors(xs, j) && j != k
    ensures m !in xs
  {
  }

  /** A message is among the errors exactly when it is among those of
      its own field. */
  lemma MemberOfFields(m: string, a: seq<string>, b: seq<string>, c: seq<string>, d: seq<string>)
    requires OneFieldErrors(a, 0) && OneFieldErrors(b, 1) && OneFieldErrors(c, 2) && OneFieldErrors(d, 3)
    ensures m in a + b + c + d <==>
      || (FieldOf(m) == 0 && m in a) || (FieldOf(m) == 1 && m in b)
      || (FieldOf(m) == 2 && m in c) || (FieldOf(m) == 3 && m in d)
  {
  }

  lemma NameConditions(name: string)
    ensures NameRequired in NameErrors(name) <==> AllWhitespace(name)
    ensures NameTooLong in NameErrors(name) <==> Trim(name) != "" && Utf16Length(Trim(name)) > NameMaxLength
  {
    var n := Trim(name);
    TrimEmptyIff(name);
    MessageFields();
    if n == "" {
      assert NameCheck(n) == [NameRequired];
    } else if Utf16Length(n) > NameMaxLength {
      assert NameCheck(n) == [NameTooLong];
    } else {
      assert NameCheck(n) == [];
    }
  }

  lemma EmailConditions(email: string)
    ensures EmailRequired in EmailErrors(email) <==> AllWhitespace(email)
    ensures EmailInvalid in EmailErrors(email) <==> Trim(email) != "" && !EmailPattern(Trim(email))
  {
    var e := Trim(email);
    TrimEmptyIff(email);
    MessageFields();
    if e == "" {
      assert EmailCheck(e) == [EmailRequired];
    } else if !EmailPattern(e) {
      assert EmailCheck(e) == [EmailInvalid];
    } else {
      assert EmailCheck(e) == [];
    }
  }

  lemma PasswordConditions(password: string, confirmation: string)
    ensures PasswordRequired in PasswordErrors(password) <==> password == ""
    ensures PasswordTooShort in PasswordErrors(password) <==> password != "" && Utf16Length(password) < PasswordMinLength
    ensures ConfirmationRequired in ConfirmationErrors(password, confirmation) <==> confirmation == ""
    ensures PasswordsDiffer in ConfirmationErrors(password, confirmation) <==> confirmation != "" && password != confirmation
  {
    MessageFields();
  }

  /** Each message is reported exactly when its condition holds. */
  lemma ErrorConditions(name: string, email: string, password: string, confirmation: string)
    ensures var errs := RegistrationErrors(name, email, password, confirmation);
      && (NameRequired in errs <==> AllWhitespace(name))
      && (NameTooLong in errs <==> Trim(name) != "" && Utf16Length(Trim(name)) > NameMaxLength)
      && (EmailRequired in errs <==> AllWhitespace(email))
      && (EmailInvalid in errs <==> Trim(email) != "" && !EmailPattern(Trim(email)))
      && (PasswordRequired in errs <==> password == "")
      && (PasswordTooShort in errs <==> password != "" && Utf16Length(password) < PasswordMinLength)
      && (ConfirmationRequired in errs <==> confirmation == "")
      && (PasswordsDiffer in errs <==> confirmation != "" && password != confirmation)
  {
    var a, b, c, d := NameErrors(name), EmailErrors(email), PasswordErrors(password), ConfirmationErrors(password, confirmation);
    FieldsOfChecks(name, email, password, confirmation);
    MessageFields();
    NameConditions(name);
    EmailConditions(email);
    PasswordConditions(password, confirmation);
    MemberOfFields(NameRequired, a, b, c, d);
    MemberOfFields(NameTooLong, a, b, c, d);
    MemberOfFields(EmailRequired, a, b, c, d);
    MemberOfFields(EmailInvalid, a, b, c, d);
    MemberOfFields(PasswordRequired, a, b, c, d);
    MemberOfFields(PasswordTooShort, a, b, c, d);
    MemberOfFields(ConfirmationRequired, a, b, c, d);
    MemberOfFields(PasswordsDiffer, a, b, c, d);
  }

  /** No password error and no confirmation error: the password is long
      enough and the confirmation repeats it. */
  lemma AcceptedPassword(password: string, confirmation: string)
    requires PasswordErrors(password) == [] && ConfirmationErrors(password, confirmation) == []
    ensures Utf16Length(password) >= PasswordMinLength && password == confirmation
  {
  }

  /** A body the middleware lets through yields a user document that
      passes the user schema's name, email and password validators, given
      a stored credential of at least 8 characters. */
  lemma AcceptedBodyFitsUserSchema(name: string, email: string, password: string, confirmation: string,
                                   credential: string, pictureUrl: Option<string>, now: Time)
    requires RegistrationErrors(name, email, password, confirmation) == []
    requires Utf16Length(credential) >= PasswordMinLength
    requires ValidPictureUrl(NewUserDocument(name, email, credential, pictureUrl, now).pictureUrl)
    ensures UserValid(NewUserDocument(name, email, credential, pictureUrl, now))
    ensures Utf16Length(password) >= PasswordMinLength && password == confirmation
  {
    var a, b, c, d := NameErrors(name), EmailErrors(email), PasswordErrors(password), ConfirmationErrors(password, confirmation);
    assert |a + b + c + d| == 0;
    assert a == [] && b == [] && c == [] && d == [];
    AcceptedPassword(password, confirmation);
    var e := Trim(email);
    assert EmailCheck(e) == [];
    assert EmailPattern(e);
    EmailPatternIgnoresCase(e);
  }

  /** The name block of `validateRegistration`: push the name's error, if any. */
  method PushNameError(errors: seq<string>, name: string) returns (result: seq<string>)
    ensures result == errors + NameCheck(name)
  {
    result := errors;
    if name == "" {
      result := result + [NameRequired];
    } else if Utf16Length(name) > NameMaxLength {
      result := result + [NameTooLong];
    }
  }

  /** The email block: push the email's error, if any. */
  method PushEmailError(errors: seq<string>, email: string) returns (result: seq<string>)
    ensures result == errors + EmailCheck(email)
  {
    result := errors;
    if email == "" {
      result := result + [EmailRequired];
    } else if !EmailPattern(email) {
      result := result + [EmailInvalid];
    }
  }

  /** The password block. */
  method PushPasswordError(errors: seq<string>, password: string) returns (result: seq<string>)
    ensures result == errors + PasswordErrors(password)
  {
    result := errors;
    if password == "" {
      result := result + [PasswordRequired];
    } else if Utf16Length(password) < PasswordMinLength {
      result := result + [PasswordTooShort];
    }
  }

  /** The confirmation block. */
  method PushConfirmationError(errors: seq<string>, password: string, confirmation: string) returns (result: seq<string>)
    ensures result == errors + ConfirmationErrors(password, confirmation)
  {
    result := errors;
    if confirmation == "" {
      result := result + [ConfirmationRequired];
    } else if password != confirmation {
      result := result + [PasswordsDiffer];
    }
  }

  /** The body of `validateRegistration` up to the verdict: trim the name
      and the email, then run the four checks in turn. */
  method CheckFields(rawName: string, rawEmail: string, password: string, confirmation: string)
    returns (name: string, email: string, errors: seq<string>)
    ensures name == Trim(rawName) && email == Trim(rawEmail)
    ensures errors == RegistrationErrors(rawName, rawEmail, password, confirmation)
  {
    name := Trim(rawName);
    email := Trim(rawEmail);
    assert NameErrors(rawName) == NameCheck(name);
    assert EmailErrors(rawEmail) == EmailCheck(email);
    errors := [];
    errors := PushNameError(errors, name);
    assert errors == NameCheck(name);
    errors := PushEmailError(errors, email);
    errors := PushPasswordError(errors, password);
    errors := PushConfirmationError(errors, password, confirmation);
  }

  /** What the middleware decides for a body: 400 with every error
      message joined by ", ", or `next()` when there is none. */
  function Verdict(name: string, email: string, password: string, confirmation: string): (o: Outcome)
    ensures o == CallNext <==> RegistrationErrors(name, email, password, confirmation) == []
    ensures o.Respond? ==>
      o == Respond(BadRequest, Join(RegistrationErrors(name, email, password, confirmation), ", "))
  {
    var errs := RegistrationErrors(name, email, password, confirmation);
    if |errs| > 0 then Respond(BadRequest, Join(errs, ", ")) else CallNext
  }

  /** `validateRegistration(req, res, next)`. */
  method ValidateRegistration(body: RegistrationBody) returns (outcome: Outcome)
    modifies body
    ensures outcome == Verdict(old(body.name), old(body.email), old(body.password), old(body.passwordConfirmation))
    ensures outcome.Respond? ==> unchanged(body)
    ensures outcome == CallNext ==>
      && body.name == Trim(old(body.name)) && body.email == Trim(old(body.email))
      && body.password == old(body.password) && body.passwordConfirmation == old(body.passwordConfirmation)
  {
    var name, email, errors := CheckFields(body.name, body.email, body.password, body.passwordConfirmation);
    if |errors| > 0 {
      return Respond(BadRequest, Join(errors, ", "));
    }
    body.Normalize(name, email);
    outcome := CallNext;
  }
}
