/**
 * The form logic of `RegisterScreen`: field validation behind the terms gate, the per-field
 * edit handler, and the password-strength meter.
 */
module RegisterScreen {
  import opened Common
  import opened Text
  import opened Entities
  import opened Validation
  import MockAuth

  const FullNameRequired := "Full name is required"
  const FullNameTooShort := "Name must be at least 2 characters"
  const PasswordRequired := "Password is required"
  const PasswordTooShort := "Password must be at least 6 characters"
  const PasswordTooSimple := "Password must contain uppercase, lowercase and number"
  const ConfirmRequired := "Please confirm your password"
  const ConfirmMismatch := "Passwords do not match"

  function Get(form: RegisterForm, f: RegisterField): string
  {
    match f
    case FullNameField => form.fullName
    case EmailField => form.email
    case PasswordField => form.password
    case ConfirmPasswordField => form.confirmPassword
  }

  /** `{...prev, [field]: value}`. */
  function With(form: RegisterForm, f: RegisterField, v: string): (r: RegisterForm)
    ensures Get(r, f) == v
    ensures forall g | g != f :: Get(r, g) == Get(form, g)
  {
    match f
    case FullNameField => form.(fullName := v)
    case EmailField => form.(email := v)
    case PasswordField => form.(password := v)
    case ConfirmPasswordField => form.(confirmPassword := v)
  }

  // ---------------------------------------------------------------------------------------
  // Character classes of the password regexes

  /** Regex classes used by the password rules; `Other` is `[^a-zA-Z0-9]`. */
  datatype CharClass = Lower | Upper | Digit | Other

  predicate InClass(c: char, k: CharClass)
  {
    match k
    case Lower => IsLower(c)
    case Upper => IsUpper(c)
    case Digit => IsDigit(c)
    case Other => !IsLower(c) && !IsUpper(c) && !IsDigit(c)
  }

  /** `/[a-z]/.test(s)` and its siblings: some character of `s` is in the class. */
  predicate HasClass(s: string, k: CharClass)
  {
    exists i | 0 <= i < |s| :: InClass(s[i], k)
  }

  /** `(?=.*X)` tried at position `p`: a character of class `X` follows `p` on the same line. */
  predicate ReachesClass(s: string, p: int, k: CharClass)
  {
    exists q | 0 <= p <= q < |s| :: InClass(s[q], k) && forall m | p <= m < q :: !IsLineTerminator(s[m])
  }

  /** `/(?=.*[a-z])(?=.*[A-Z])(?=.*\d)/.test(s)`: at some start position all three lookaheads succeed. */
  predicate HasMixedClasses(s: string)
  {
    exists p | 0 <= p <= |s| :: ReachesClass(s, p, Lower) && ReachesClass(s, p, Upper) && ReachesClass(s, p, Digit)
  }

  /** The lookahead rule implies each class occurs; on a single line it is exactly that. */
  lemma MixedClassesMeansAllThree(s: string)
    ensures HasMixedClasses(s) ==> HasClass(s, Lower) && HasClass(s, Upper) && HasClass(s, Digit)
    ensures (forall i | 0 <= i < |s| :: !IsLineTerminator(s[i])) ==>
      (HasMixedClasses(s) <==> HasClass(s, Lower) && HasClass(s, Upper) && HasClass(s, Digit))
  {
    if (forall i | 0 <= i < |s| :: !IsLineTerminator(s[i])) && HasClass(s, Lower) && HasClass(s, Upper) && HasClass(s, Digit) {
      var a :| 0 <= a < |s| && InClass(s[a], Lower);
      var b :| 0 <= b < |s| && InClass(s[b], Upper);
      var c :| 0 <= c < |s| && InClass(s[c], Digit);
      assert ReachesClass(s, 0, Lower) && ReachesClass(s, 0, Upper) && ReachesClass(s, 0, Digit);
    }
  }

  /** A password split by a line break into "aB" and "1" has all three classes but fails the rule. */
  lemma LineBreakDefeatsMixedRule()
    ensures var s := "aB\n1";
      HasClass(s, Lower) && HasClass(s, Upper) && HasClass(s, Digit) && !HasMixedClasses(s)
  {
    var s := "aB\n1";
    assert InClass(s[0], Lower) && InClass(s[1], Upper) && InClass(s[3], Digit);
    forall p | 0 <= p <= |s|
      ensures !(ReachesClass(s, p, Lower) && ReachesClass(s, p, Upper) && ReachesClass(s, p, Digit))
    {
      if p <= 2 {
        assert !ReachesClass(s, p, Digit) by {
          forall q | p <= q < |s| && InClass(s[q], Digit)
            ensures exists m | p <= m < q :: IsLineTerminator(s[m])
          {
            assert q == 3 && IsLineTerminator(s[2]);
          }
        }
      } else {
        assert !ReachesClass(s, p, Lower);
      }
    }
  }

  // ---------------------------------------------------------------------------------------
  // Field rules and validateForm

  function FullNameError(fullName: string): (e: Option<string>)
    ensures e.None? <==> |Trim(fullName)| >= 2
    ensures e == Some(FullNameRequired) <==> Trim(fullName) == ""
    ensures e == Some(FullNameTooShort) <==> |Trim(fullName)| == 1
  {
    if Trim(fullName) == "" then Some(FullNameRequired)
    else if |Trim(fullName)| < 2 then Some(FullNameTooShort)
    else None
  }

  function PasswordError(password: string): (e: Option<string>)
    ensures e.None? <==> |password| >= 6 && HasMixedClasses(password)
    ensures e == Some(PasswordRequired) <==> password == ""
    ensures e == Some(PasswordTooShort) <==> 0 < |password| < 6
    ensures e == Some(PasswordTooSimple) <==> |password| >= 6 && !HasMixedClasses(password)
  {
    if password == "" then Some(PasswordRequired)
    else if |password| < 6 then Some(PasswordTooShort)
    else if !HasMixedClasses(password) then Some(PasswordTooSimple)
    else None
  }

  function ConfirmError(password: string, confirm: string): (e: Option<string>)
    ensures e.None? <==> confirm != "" && confirm == password
    ensures e == Some(ConfirmRequired) <==> confirm == ""
    ensures e == Some(ConfirmMismatch) <==> confirm != "" && confirm != password
  {
    if confirm == "" then Some(ConfirmRequired)
    else if password != confirm then Some(ConfirmMismatch)
    else None
  }

  /** The error, if any, the rules give `field`. */
  function FieldError(form: RegisterForm, field: RegisterField): Option<string>
  {
    match field
    case FullNameField => FullNameError(form.fullName)
    case EmailField => EmailError(form.email)
    case PasswordField => PasswordError(form.password)
    case ConfirmPasswordField => ConfirmError(form.password, form.confirmPassword)
  }

  const AllFields: set<RegisterField> := {FullNameField, EmailField, PasswordField, ConfirmPasswordField}

  /**
   * `validateForm()` with the terms checkbox state and the current error map: without accepted
   * terms it fails and leaves the errors as they were; otherwise the new map holds exactly the
   * failing fields with their first failing message, and the form is valid iff it is empty.
   */
  function ValidateForm(form: RegisterForm, acceptTerms: bool, errors: map<RegisterField, string>)
    : (r: (map<RegisterField, string>, bool))
    ensures !acceptTerms ==> r == (errors, false)
    ensures acceptTerms ==>
      && (forall f :: f in r.0 <==> FieldError(form, f).Some?)
      && (forall f | f in r.0 :: r.0[f] == FieldError(form, f).value)
      && (r.1 <==> forall f :: FieldError(form, f).None?)
  {
    if !acceptTerms then (errors, false)
    else
      NoErrorsIffAllPass(form);
      (FieldErrors(form), FieldErrors(form) == map[])
  }

  /** The error map of the rules: one entry per failing field, holding that field's message. */
  function FieldErrors(form: RegisterForm): (e: map<RegisterField, string>)
    ensures forall f :: f in e <==> FieldError(form, f).Some?
    ensures forall f | f in e :: e[f] == FieldError(form, f).value
  {
    map f | f in AllFields && FieldError(form, f).Some? :: FieldError(form, f).value
  }

  lemma NoErrorsIffAllPass(form: RegisterForm)
    ensures FieldErrors(form) == map[] <==> forall f :: FieldError(form, f).None?
  {
    if FieldErrors(form) != map[] {
      var f :| f in FieldErrors(form);
      assert FieldError(form, f).Some?;
    }
  }

  /** A form this screen accepts always passes the mock register's own checks. */
  lemma AcceptedFormPassesMockRegister(form: RegisterForm, errors: map<RegisterField, string>, idTime: nat, tokenTime: nat)
    requires ValidateForm(form, true, errors).1
    ensures MockAuth.Register(form, idTime, tokenTime).Ok?
  {
    AcceptedFormHasNoFieldErrors(form, errors);
    PassingFieldsPassMockRegister(form, idTime, tokenTime);
  }

  lemma AcceptedFormHasNoFieldErrors(form: RegisterForm, errors: map<RegisterField, string>)
    requires ValidateForm(form, true, errors).1
    ensures FullNameError(form.fullName).None? && EmailError(form.email).None?
    ensures PasswordError(form.password).None? && ConfirmError(form.password, form.confirmPassword).None?
  {
    assert FieldError(form, FullNameField).None? && FieldError(form, EmailField).None?;
    assert FieldError(form, PasswordField).None? && FieldError(form, ConfirmPasswordField).None?;
  }

  /** The four field rules together are stricter than the mock register's checks. */
  lemma PassingFieldsPassMockRegister(form: RegisterForm, idTime: nat, tokenTime: nat)
    requires FullNameError(form.fullName).None? && EmailError(form.email).None?
    requires PasswordError(form.password).None? && ConfirmError(form.password, form.confirmPassword).None?
    ensures MockAuth.Register(form, idTime, tokenTime).Ok?
  {
    var at :| 0 <= at <= |form.fullName| && MatchAt(form.fullName, Trim(form.fullName), at);
    EmailPatternNotBlank(form.email);
    assert form.fullName != "" && form.email != "";
  }

  /** `handleInputChange(field, value)`: only the named field changes and only its error is blanked. */
  function HandleInputChange(form: RegisterForm, errors: map<RegisterField, string>, field: RegisterField, value: string)
    : (r: (RegisterForm, map<RegisterField, string>))
    ensures Get(r.0, field) == value && forall g | g != field :: Get(r.0, g) == Get(form, g)
    ensures r.1.Keys == errors.Keys
    ensures field in r.1 ==> r.1[field] == ""
    ensures forall g | g in errors && g != field :: r.1[g] == errors[g]
  {
    (With(form, field, value), ClearError(errors, field))
  }

  // ---------------------------------------------------------------------------------------
  // Password strength

  datatype Strength = Strength(score: int, color: string, caption: string)

  function Criterion(b: bool): int { if b then 1 else 0 }

  /** The number of strength criteria `password` meets. */
  function Score(password: string): int
  {
    Criterion(|password| >= 6) + Criterion(HasClass(password, Lower)) + Criterion(HasClass(password, Upper))
      + Criterion(HasClass(password, Digit)) + Criterion(HasClass(password, Other))
  }

  /** The colour and label of a score: Weak up to 2, Medium 3, Strong 4, Very Strong above. */
  function Rate(score: int): (s: Strength)
    ensures s.score == score
  {
    if score <= 2 then Strength(score, "#FF3B30", "Weak")
    else if score <= 3 then Strength(score, "#FF9500", "Medium")
    else if score <= 4 then Strength(score, "#34C759", "Strong")
    else Strength(score, "#007AFF", "Very Strong")
  }

  /**
   * `getPasswordStrength()`: nothing for an empty password, otherwise the number of criteria met,
   * from 1 to 5, with the colour and label of that score.
   */
  function PasswordStrength(password: string): (r: Option<Strength>)
    ensures r.None? <==> password == ""
    ensures r.Some? ==> r.value.score == Score(password)
    ensures r.Some? ==> 1 <= r.value.score <= 5 && r.value == Rate(r.value.score)
  {
    if password == "" then None
    else
      var c := password[0];
      assert InClass(c, Lower) || InClass(c, Upper) || InClass(c, Digit) || InClass(c, Other);
      Some(Rate(Score(password)))
  }

  /** The top score means every criterion holds: six characters and all four character classes. */
  lemma TopScoreMeetsAll(password: string)
    ensures Score(password) <= 5
    ensures Score(password) == 5 <==> |password| >= 6 && forall k :: HasClass(password, k)
  {
  }

  /** A character already present keeps its class present after more text is typed. */
  lemma HasClassAppend(s: string, c: char, k: CharClass)
    requires HasClass(s, k)
    ensures HasClass(s + [c], k)
  {
    var i :| 0 <= i < |s| && InClass(s[i], k);
    assert (s + [c])[i] == s[i];
  }

  /** Typing one more character never lowers the score. */
  lemma AppendNeverLowersScore(password: string, c: char)
    ensures Score(password) <= Score(password + [c])
  {
    forall k | HasClass(password, k)
      ensures HasClass(password + [c], k)
    {
      HasClassAppend(password, c, k);
    }
  }

  /** The rank of a label in the order Weak < Medium < Strong < Very Strong. */
  function LabelRank(caption: string): int
  {
    if caption == "Weak" then 0 else if caption == "Medium" then 1 else if caption == "Strong" then 2 else 3
  }

  /** A higher score never gets a lower label. */
  lemma LabelMonotone(a: int, b: int)
    requires a <= b
    ensures LabelRank(Rate(a).caption) <= LabelRank(Rate(b).caption)
  {
  }

  /** A password the form accepts is rated at least Strong. */
  lemma AcceptedPasswordIsStrong(password: string)
    requires PasswordError(password).None?
    ensures PasswordStrength(password).Some?
    ensures PasswordStrength(password).value.score >= 4
    ensures PasswordStrength(password).value.caption in {"Strong", "Very Strong"}
  {
    MixedClassesMeansAllThree(password);
  }
}
