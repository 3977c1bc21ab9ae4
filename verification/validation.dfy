/**
 * Rules the login and registration screens share: the email check with the pattern
 * `\S+@\S+\.\S+` (searched anywhere in the untrimmed input), and the error map both forms keep.
 */
module Validation {
  import opened Common
  import opened Text

  const EmailRequired := "Email is required"
  const EmailInvalid := "Please enter a valid email"

  /**
   * The pattern matches with its `@` at `i` and its `.` at `j`: a non-blank just before the `@`,
   * a non-empty run of non-blanks between the two, and a non-blank right after the dot.
   */
  predicate EmailPatternAt(s: string, i: int, j: int)
  {
    && 1 <= i && i + 1 < j && j + 1 < |s|
    && !IsSpace(s[i - 1]) && s[i] == '@' && s[j] == '.' && !IsSpace(s[j + 1])
    && forall k | i < k < j :: !IsSpace(s[k])
  }

  /** `/\S+@\S+\.\S+/.test(s)`. */
  predicate EmailPatternOccurs(s: string)
  {
    exists i, j | 0 <= i < j < |s| :: EmailPatternAt(s, i, j)
  }

  /** The email rule both screens apply: required (after trimming), then the pattern. */
  function EmailError(email: string): (e: Option<string>)
    ensures e.None? <==> EmailPatternOccurs(email)
    ensures e == Some(EmailRequired) <==> Trim(email) == ""
    ensures e == Some(EmailInvalid) <==> Trim(email) != "" && !EmailPatternOccurs(email)
  {
    if Trim(email) == "" then Some(EmailRequired)
    else if !EmailPatternOccurs(email) then Some(EmailInvalid)
    else None
  }

  /** An input the pattern accepts is never blank, so it never draws the "required" error. */
  lemma EmailPatternNotBlank(s: string)
    requires EmailPatternOccurs(s)
    ensures Trim(s) != ""
    ensures '@' in s && '.' in s
  {
    var i, j :| 0 <= i < j < |s| && EmailPatternAt(s, i, j);
    assert !IsSpace(s[i]);
  }

  /** Surrounding text, blanks included, never spoils a match: the pattern is not anchored. */
  lemma EmailPatternUnanchored(p: string, s: string, q: string)
    requires EmailPatternOccurs(s)
    ensures EmailPatternOccurs(p + s + q)
  {
    var i, j :| 0 <= i < j < |s| && EmailPatternAt(s, i, j);
    var t := p + s + q;
    assert forall k | 0 <= k < |s| :: t[|p| + k] == s[k];
    assert EmailPatternAt(t, |p| + i, |p| + j);
  }

  /** An address whose only blank is a trailing one still passes: the check reads the untrimmed input. */
  lemma EmailPatternExample()
    ensures EmailPatternOccurs("a@b.c ")
    ensures !EmailPatternOccurs("a@b")
  {
    assert EmailPatternAt("a@b.c ", 1, 3);
  }

  /**
   * The `handleInputChange` rule for an error map: a field whose error is set (non-empty) has it
   * replaced by the empty string; nothing else changes.
   */
  function ClearError<F>(errors: map<F, string>, field: F): (r: map<F, string>)
    ensures r.Keys == errors.Keys
    ensures field in r ==> r[field] == ""
    ensures forall g | g in errors && g != field :: r[g] == errors[g]
  {
    if field in errors && errors[field] != "" then errors[field := ""] else errors
  }
}
