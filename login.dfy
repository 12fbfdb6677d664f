/**
 * The sign-in form (src/pages/Auth/Login.tsx): e-mail and password, a map
 * from input name to the translation key of its error message, and a
 * submit that calls `login` only when the form validates.
 */
module Login {
  import opened Optional
  import Email

  datatype Field = EmailField | Password

  const EmailRequired := "auth.login.emailRequired"
  const EmailInvalid := "auth.login.emailInvalid"
  const PasswordRequired := "auth.login.passwordRequired"

  datatype Form = Form(email: string, password: string)

  /** The errors `validateForm` collects: the shared e-mail rule, and a
      password that is only required to be non-empty. */
  function LoginErrors(f: Form): (errs: map<Field, string>)
    ensures EmailField in errs <==> !Email.RegexMatches(f.email)
    ensures EmailField in errs ==> errs[EmailField] == if f.email == "" then EmailRequired else EmailInvalid
    ensures Password in errs <==> f.password == ""
    ensures Password in errs ==> errs[Password] == PasswordRequired
  {
    var e1: map<Field, string> := match Email.CheckEmail(f.email)
      case Some(Missing) => map[EmailField := EmailRequired]
      case Some(Invalid) => map[EmailField := EmailInvalid]
      case None => map[];
    if f.password == "" then e1[Password := PasswordRequired] else e1
  }

  /** The form passes exactly when the e-mail matches and a password was typed. */
  lemma LoginValidIff(f: Form)
    ensures LoginErrors(f) == map[] <==> Email.RegexMatches(f.email) && f.password != ""
  {
    var errs := LoginErrors(f);
    if errs != map[] {
      var k :| k in errs;
    }
  }

  class LoginPage {
    var form: Form
    var errors: map<Field, string>
    var serverError: Option<string>

    constructor ()
      ensures form == Form("", "") && errors == map[] && serverError == None
    {
      form := Form("", "");
      errors := map[];
      serverError := None;
    }

    /** `validateForm`. */
    method ValidateForm() returns (ok: bool)
      modifies this`errors
      ensures errors == LoginErrors(form)
      ensures ok <==> |errors| == 0
    {
      var newErrors: map<Field, string> := map[];
      if form.email == "" {
        newErrors := newErrors[EmailField := EmailRequired];
      } else if !Email.RegexTest(form.email) {
        newErrors := newErrors[EmailField := EmailInvalid];
      }
      if form.password == "" {
        newErrors := newErrors[Password := PasswordRequired];
      }
      errors := newErrors;
      ok := |newErrors| == 0;
    }

    /** `handleChange`: stores the input, blanks that field's message if it
        had one, and clears the server error. */
    method HandleChange(field: Field, value: string)
      modifies this
      ensures form == if field == EmailField then old(form).(email := value) else old(form).(password := value)
      ensures errors == if field in old(errors) && old(errors)[field] != "" then old(errors)[field := ""] else old(errors)
      ensures serverError == None
    {
      if field == EmailField {
        form := form.(email := value);
      } else {
        form := form.(password := value);
      }
      if field in errors && errors[field] != "" {
        errors := errors[field := ""];
      }
      serverError := None;
    }

    /** `handleSubmit` up to the `login` call: the credentials passed to
        `login`, or None when validation fails. */
    method HandleSubmit() returns (login: Option<(string, string)>)
      modifies this`errors, this`serverError
      ensures errors == LoginErrors(form)
      ensures login.Some? <==> errors == map[]
      ensures login.Some? ==> login.value == (form.email, form.password) && serverError == None
      ensures login.None? ==> serverError == old(serverError)
    {
      var ok := ValidateForm();
      if !ok {
        return None;
      }
      serverError := None;
      login := Some((form.email, form.password));
    }
  }
}
