/**
 * The sign-up form (src/pages/Auth/Register.tsx): four inputs, a map from
 * input name to the translation key of its error message, and a submit
 * that calls `signup` only when the form validates. Messages are kept as
 * their translation keys (`t` is left out); the `signup` call is returned.
 */
module Register {
  import opened Optional
  import Email

  const MinPasswordLength := 6

  datatype Field = EmailField | Password1 | Password2 | AgreeToTerms

  const EmailRequired := "auth.register.emailRequired"
  const EmailInvalid := "auth.register.emailInvalid"
  const PasswordRequired := "auth.register.passwordRequired"
  const PasswordLength := "auth.register.passwordLength"
  const ConfirmPasswordRequired := "auth.register.confirmPasswordRequired"
  const PasswordsNoMatch := "auth.register.passwordsNoMatch"
  const TermsRequired := "auth.register.termsRequired"

  datatype Form = Form(email: string, password1: string, password2: string, agreeToTerms: bool)

  /** JavaScript's `length` of a text: UTF-16 code units, one for a code point
      of the Basic Multilingual Plane and two (a surrogate pair) above it. */
  function Utf16Length(s: string): (n: nat)
    ensures |s| <= n <= 2 * |s|
    ensures n == 0 <==> s == ""
  {
    if s == [] then 0
    else Utf16Length(s[..|s| - 1]) + (if s[|s| - 1] as int < 0x1_0000 then 1 else 2)
  }

  /** Text of the Basic Multilingual Plane has one unit per character. */
  lemma {:induction false} Utf16LengthBmp(s: string)
    requires forall i :: 0 <= i < |s| ==> s[i] as int < 0x1_0000
    ensures Utf16Length(s) == |s|
  {
    if s != [] {
      Utf16LengthBmp(s[..|s| - 1]);
    }
  }

  /** Three emoji outside the Basic Multilingual Plane are six units long,
      so they pass the length rule, while three Latin letters do not. */
  lemma Utf16LengthExamples()
    ensures Utf16Length("\U{1F600}\U{1F600}\U{1F600}") == 6
    ensures Utf16Length("abc") == 3
  {
    assert "\U{1F600}\U{1F600}\U{1F600}"[..2] == "\U{1F600}\U{1F600}";
    assert "\U{1F600}\U{1F600}"[..1] == "\U{1F600}";
    assert "abc"[..2] == "ab";
    assert "ab"[..1] == "a";
  }

  /** The errors `validateForm` collects for a form: at most one message per
      field, and a field is flagged exactly when its rule fails. */
  function RegisterErrors(f: Form): (errs: map<Field, string>)
    ensures EmailField in errs <==> !Email.RegexMatches(f.email)
    ensures EmailField in errs ==> errs[EmailField] == if f.email == "" then EmailRequired else EmailInvalid
    ensures Password1 in errs <==> Utf16Length(f.password1) < MinPasswordLength
    ensures Password1 in errs ==> errs[Password1] == if f.password1 == "" then PasswordRequired else PasswordLength
    ensures Password2 in errs <==> f.password2 == "" || f.password1 != f.password2
    ensures Password2 in errs ==>
      errs[Password2] == if f.password2 == "" then ConfirmPasswordRequired else PasswordsNoMatch
    ensures AgreeToTerms in errs <==> !f.agreeToTerms
    ensures AgreeToTerms in errs ==> errs[AgreeToTerms] == TermsRequired
  {
    TermsStep(Password2Step(Password1Step(EmailStep(f), f), f), f)
  }

  /** The rules one after another, each adding at most its own field. */
  function EmailStep(f: Form): map<Field, string> {
    match Email.CheckEmail(f.email)
    case Some(Missing) => map[EmailField := EmailRequired]
    case Some(Invalid) => map[EmailField := EmailInvalid]
    case None => map[]
  }

  function Password1Step(errs: map<Field, string>, f: Form): map<Field, string> {
    if f.password1 == "" then errs[Password1 := PasswordRequired]
    else if Utf16Length(f.password1) < MinPasswordLength then errs[Password1 := PasswordLength]
    else errs
  }

  function Password2Step(errs: map<Field, string>, f: Form): map<Field, string> {
    if f.password2 == "" then errs[Password2 := ConfirmPasswordRequired]
    else if f.password1 != f.password2 then errs[Password2 := PasswordsNoMatch]
    else errs
  }

  function TermsStep(errs: map<Field, string>, f: Form): map<Field, string> {
    if !f.agreeToTerms then errs[AgreeToTerms := TermsRequired] else errs
  }

  /** The form passes exactly when the e-mail matches, the password has at
      least six UTF-16 code units, the confirmation repeats it and the terms are
      accepted. */
  lemma RegisterValidIff(f: Form)
    ensures RegisterErrors(f) == map[] <==>
      Email.RegexMatches(f.email) && Utf16Length(f.password1) >= MinPasswordLength &&
      f.password2 == f.password1 && f.agreeToTerms
  {
    var errs := RegisterErrors(f);
    if errs != map[] {
      var k :| k in errs;
    }
  }

  class RegisterPage {
    var form: Form
    var errors: map<Field, string>
    var serverError: Option<string>

    constructor ()
      ensures form == Form("", "", "", false) && errors == map[] && serverError == None
    {
      form := Form("", "", "", false);
      errors := map[];
      serverError := None;
    }

    /** `validateForm`: collects the errors one rule after another, stores
        them, and reports whether there were none. */
    method ValidateForm() returns (ok: bool)
      modifies this`errors
      ensures errors == RegisterErrors(form)
      ensures ok <==> |errors| == 0
    {
      var f := form;
      var newErrors: map<Field, string> := map[];
      if f.email == "" {
        newErrors := newErrors[EmailField := EmailRequired];
      } else if !Email.RegexTest(f.email) {
        newErrors := newErrors[EmailField := EmailInvalid];
      }
      assert newErrors == EmailStep(f);
      if f.password1 == "" {
        newErrors := newErrors[Password1 := PasswordRequired];
      } else if Utf16Length(f.password1) < MinPasswordLength {
        newErrors := newErrors[Password1 := PasswordLength];
      }
      assert newErrors == Password1Step(EmailStep(f), f);
      if f.password2 == "" {
        newErrors := newErrors[Password2 := ConfirmPasswordRequired];
      } else if f.password1 != f.password2 {
        newErrors := newErrors[Password2 := PasswordsNoMatch];
      }
      assert newErrors == Password2Step(Password1Step(EmailStep(f), f), f);
      if !f.agreeToTerms {
        newErrors := newErrors[AgreeToTerms := TermsRequired];
      }
      assert newErrors == RegisterErrors(f);
      errors := newErrors;
      ok := |newErrors| == 0;
    }

    /** `handleChange` for a text input (`value`) or the checkbox (`checked`):
        stores the input, blanks that field's message if it had one, and
        clears the server error. */
    method HandleChange(field: Field, value: string, checked: bool)
      modifies this
      ensures form == match field
        case EmailField => old(form).(email := value)
        case Password1 => old(form).(password1 := value)
        case Password2 => old(form).(password2 := value)
        case AgreeToTerms => old(form).(agreeToTerms := checked)
      ensures errors == if field in old(errors) && old(errors)[field] != "" then old(errors)[field := ""] else old(errors)
      ensures serverError == None
    {
      match field {
        case EmailField => form := form.(email := value);
        case Password1 => form := form.(password1 := value);
        case Password2 => form := form.(password2 := value);
        case AgreeToTerms => form := form.(agreeToTerms := checked);
      }
      if field in errors && errors[field] != "" {
        errors := errors[field := ""];
      }
      serverError := None;
    }

    /** `handleSubmit` up to the `signup` call: the credentials passed to
        `signup`, or None when validation fails and the handler returns. */
    method HandleSubmit() returns (signup: Option<(string, string)>)
      modifies this`errors, this`serverError
      ensures errors == RegisterErrors(form)
      ensures signup.Some? <==> errors == map[]
      ensures signup.Some? ==> signup.value == (form.email, form.password1) && serverError == None
      ensures signup.None? ==> serverError == old(serverError)
    {
      var ok := ValidateForm();
      if !ok {
        return None;
      }
      serverError := None;
      signup := Some((form.email, form.password1));
    }
  }
}
