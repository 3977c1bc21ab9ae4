/**
 * The mock `login` and `register` calls of `src/services/api.js`: local validation in a fixed
 * order, then a user record derived from the inputs. The artificial delay is dropped and
 * `Date.now()` readings are parameters.
 */
module MockAuth {
  import opened Common
  import opened Text
  import opened Entities

  const MissingCredentials := "Email and password are required"
  const PasswordTooShort := "Password must be at least 6 characters"
  const MissingFields := "All fields are required"
  const PasswordMismatch := "Passwords do not match"
  const MinPasswordLength := 6
  const AvatarBase := "https://i.pravatar.cc/150?u="
  const TokenPrefix := "mock-jwt-token-"

  /** `email.split('@')[0]`: the part of the email before its first `@`. */
  function Username(email: string): (u: string)
    ensures u <= email && '@' !in u
    ensures |u| < |email| ==> email[|u|] == '@'
    ensures '@' !in email ==> u == email
  {
    SplitHead(email, '@');
    Split(email, '@')[0]
  }

  /** `'mock-jwt-token-' + Date.now()`. */
  function Token(now: nat): (t: string)
    ensures |t| > |TokenPrefix| && t[..|TokenPrefix|] == TokenPrefix
    ensures forall i | |TokenPrefix| <= i < |t| :: IsDigit(t[i])
    ensures DigitsValue(t[|TokenPrefix|..]) == now
    ensures |t| > |TokenPrefix| + 1 ==> t[|TokenPrefix|] != '0'
  {
    var t := TokenPrefix + DecimalString(now);
    var d := DecimalString(now);
    assert t[|TokenPrefix|..] == d;
    assert forall i | |TokenPrefix| <= i < |t| :: t[i] == d[i - |TokenPrefix|];
    t
  }

  /**
   * `apiService.login(email, password)`: empty credentials fail first, then a short password;
   * otherwise the fixed demo profile with the given email and the username before the `@`.
   */
  function Login(email: string, password: string, now: nat): (r: Result<User>)
    ensures (email == "" || password == "") ==> r == Err(MissingCredentials)
    ensures email != "" && password != "" && |password| < MinPasswordLength ==> r == Err(PasswordTooShort)
    ensures r.Ok? <==> email != "" && |password| >= MinPasswordLength
    ensures r.Ok? ==>
      && r.value.email == email
      && r.value.username == Username(email)
      && r.value.token == Token(now)
      && r.value.image == AvatarBase + email
      && r.value.firstName == "Beauty" && r.value.lastName == "Lover" && r.value.id == 1
  {
    if email == "" || password == "" then Err(MissingCredentials)
    else if |password| < MinPasswordLength then Err(PasswordTooShort)
    else Ok(User(1, "Beauty", "Lover", email, Username(email), AvatarBase + email, Token(now)))
  }

  /**
   * `const [firstName, ...rest] = fullName.trim().split(' ')` and `rest.join(' ')`: the first name
   * is the first space-separated token of the trimmed name and the last name is the rest.
   */
  function SplitName(fullName: string): (names: (string, string))
    ensures ' ' !in names.0
    ensures names.1 == "" ==> names.0 == Trim(fullName)
    ensures names.1 != "" ==> names.0 + " " + names.1 == Trim(fullName)
  {
    var parts := Split(Trim(fullName), ' ');
    (parts[0], Join(parts[1..], ' '))
  }

  /**
   * `apiService.register(userData)`: all four fields required, then matching passwords, then
   * the length rule; on success the names come from `SplitName` and the username from the email.
   */
  function Register(form: RegisterForm, idTime: nat, tokenTime: nat): (r: Result<User>)
    ensures (form.fullName == "" || form.email == "" || form.password == "" || form.confirmPassword == "")
      ==> r == Err(MissingFields)
    ensures (&& form.fullName != "" && form.email != "" && form.password != "" && form.confirmPassword != ""
             && form.password != form.confirmPassword)
      ==> r == Err(PasswordMismatch)
    ensures (&& form.fullName != "" && form.email != "" && form.password != ""
             && form.password == form.confirmPassword && |form.password| < MinPasswordLength)
      ==> r == Err(PasswordTooShort)
    ensures r.Ok? <==>
      form.fullName != "" && form.email != "" && form.password == form.confirmPassword
      && |form.password| >= MinPasswordLength
    ensures r.Ok? ==>
      && r.value.id == idTime && r.value.email == form.email
      && (r.value.firstName, r.value.lastName) == SplitName(form.fullName)
      && r.value.username == Username(form.email)
      && r.value.image == AvatarBase + form.email
      && r.value.token == Token(tokenTime)
  {
    if form.fullName == "" || form.email == "" || form.password == "" || form.confirmPassword == "" then
      Err(MissingFields)
    else if form.password != form.confirmPassword then Err(PasswordMismatch)
    else if |form.password| < MinPasswordLength then Err(PasswordTooShort)
    else
      var (first, last) := SplitName(form.fullName);
      Ok(User(idTime, first, last, form.email, Username(form.email), AvatarBase + form.email, Token(tokenTime)))
  }

  /** A string that neither starts nor ends with a blank is its own trim. */
  lemma TrimUnpadded(s: string)
    requires s != [] && !IsSpace(s[0]) && !IsSpace(s[|s| - 1])
    ensures Trim(s) == s
  {
    assert TrimStart(s) == s;
    assert TrimEnd(s) == s;
  }

  /** Splitting at the first separator, known by position. */
  lemma SplitAt(s: string, sep: char, k: nat)
    requires k < |s| && s[k] == sep && sep !in s[..k]
    ensures Split(s, sep) == [s[..k]] + Split(s[k + 1..], sep)
  {
  }

  /** A one-word name (no blanks at all) is all first name: "Ana" gives ("Ana", ""). */
  lemma OneWordName(w: string)
    requires w != [] && forall i | 0 <= i < |w| :: !IsSpace(w[i])
    ensures SplitName(w) == (w, "")
  {
    TrimUnpadded(w);
    assert ' ' !in w by {
      forall i | 0 <= i < |w| ensures w[i] != ' ' { assert !IsSpace(w[i]); }
    }
  }

  /**
   * A first word followed by a space and more words splits into that word and the rest verbatim:
   * "Ana Maria Lopez" gives ("Ana", "Maria Lopez").
   */
  lemma SeveralWordName(first: string, rest: string)
    requires first != [] && forall i | 0 <= i < |first| :: !IsSpace(first[i])
    requires rest != [] && !IsSpace(rest[|rest| - 1])
    ensures SplitName(first + " " + rest) == (first, rest)
  {
    var s := first + " " + rest;
    assert s[0] == first[0] && s[|s| - 1] == rest[|rest| - 1];
    TrimUnpadded(s);
    assert ' ' !in first by {
      forall i | 0 <= i < |first| ensures first[i] != ' ' { assert !IsSpace(first[i]); }
    }
    assert s[..|first|] == first && s[|first| + 1..] == rest;
    SplitAt(s, ' ', |first|);
    assert Split(s, ' ')[1..] == Split(rest, ' ');
  }
}
