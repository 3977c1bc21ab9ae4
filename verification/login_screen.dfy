/** The form logic of `LoginScreen`: field validation and the per-field edit handler. */
module LoginScreen {
  import opened Common
  import opened Text
  import opened Validation
  import MockAuth

  const PasswordRequired := "Password is required"
  const PasswordTooShort := "Password must be at least 6 characters"

  datatype LoginField = LoginEmail | LoginPassword

  datatype LoginForm = LoginForm(email: string, password: string)
  {
    function Get(f: LoginField): string
    {
      match f
      case LoginEmail => email
      case LoginPassword => password
    }

    /** `{...prev, [field]: value}`. */
    function With(f: LoginField, v: string): (r: LoginForm)
      ensures r.Get(f) == v
      ensures forall g | g != f :: r.Get(g) == Get(g)
    {
      match f
      case LoginEmail => this.(email := v)
      case LoginPassword => this.(password := v)
    }
  }

  /** The password rule of this screen: required, then at least six characters. */
  function PasswordError(password: string): (e: Option<string>)
    ensures e.None? <==> |password| >= 6
    ensures e == Some(PasswordRequired) <==> password == ""
    ensures e == Some(PasswordTooShort) <==> 0 < |password| < 6
  {
    if password == "" then Some(PasswordRequired)
    else if |password| < 6 then Some(PasswordTooShort)
    else None
  }

  /**
   * `validateForm()`: the new error map holds an entry exactly for each failing field, with that
   * field's first failing message, and the form is valid exactly when the map is empty.
   */
  function ValidateForm(form: LoginForm): (r: (map<LoginField, string>, bool))
    ensures LoginEmail in r.0 <==> EmailError(form.email).Some?
    ensures LoginEmail in r.0 ==> r.0[LoginEmail] == EmailError(form.email).value
    ensures LoginPassword in r.0 <==> PasswordError(form.password).Some?
    ensures LoginPassword in r.0 ==> r.0[LoginPassword] == PasswordError(form.password).value
    ensures r.1 <==> r.0 == map[]
  {
    var withEmail: map<LoginField, string> :=
      match EmailError(form.email)
      case Some(m) => map[LoginEmail := m]
      case None => map[];
    var errors :=
      match PasswordError(form.password)
      case Some(m) => withEmail[LoginPassword := m]
      case None => withEmail;
    assert LoginEmail in errors ==> errors != map[];
    (errors, errors == map[])
  }

  /** A form this screen accepts always passes the mock login's own checks, and its username
   *  is a proper prefix of the email (the pattern guarantees an `@`). */
  lemma AcceptedFormPassesMockLogin(form: LoginForm, now: nat)
    requires ValidateForm(form).1
    ensures MockAuth.Login(form.email, form.password, now).Ok?
    ensures |MockAuth.Login(form.email, form.password, now).value.username| < |form.email|
  {
    assert EmailPatternOccurs(form.email);
    EmailPatternNotBlank(form.email);
  }

  /**
   * `handleInputChange(field, value)`: only the named field takes the new value, and only that
   * field's error is blanked (if it was set).
   */
  function HandleInputChange(form: LoginForm, errors: map<LoginField, string>, field: LoginField, value: string)
    : (r: (LoginForm, map<LoginField, string>))
    ensures r.0.Get(field) == value && forall g | g != field :: r.0.Get(g) == form.Get(g)
    ensures r.1.Keys == errors.Keys
    ensures field in r.1 ==> r.1[field] == ""
    ensures forall g | g in errors && g != field :: r.1[g] == errors[g]
  {
    (form.With(field, value), ClearError(errors, field))
  }
}
