/**
 * The JavaScript string operations the storefront relies on, over `string = seq<char>`:
 * ASCII lower-casing, `includes`/`indexOf`, `trim`, `split`/`join` on one separator
 * character, and the decimal rendering of a non-negative number.
 */
module Text {

  /** JavaScript LineTerminator code points (LF, CR, LS, PS); the regex `.` does not match them. */
  predicate IsLineTerminator(c: char)
  {
    c == '\n' || c == '\r' || c == '\U{2028}' || c == '\U{2029}'
  }

  /** JavaScript WhiteSpace or LineTerminator: what `trim` strips and what the regex class `\s` matches. */
  predicate IsSpace(c: char)
  {
    || IsLineTerminator(c)
    || c == ' ' || c == '\t' || c == '\U{000B}' || c == '\U{000C}'
    || c == '\U{00A0}' || c == '\U{1680}'
    || ('\U{2000}' <= c <= '\U{200A}')
    || c == '\U{202F}' || c == '\U{205F}' || c == '\U{3000}' || c == '\U{FEFF}'
  }

  /** The regex classes `[A-Z]`, `[a-z]` and `\d`. */
  predicate IsUpper(c: char) { 'A' <= c <= 'Z' }
  predicate IsLower(c: char) { 'a' <= c <= 'z' }
  predicate IsDigit(c: char) { '0' <= c <= '9' }

  /** `toLowerCase` restricted to ASCII: upper-case letters move down by 32, everything else stays. */
  function ToLowerChar(c: char): (r: char)
    ensures !IsUpper(r)
    ensures IsUpper(c) ==> IsLower(r) && r as int == c as int + 32
    ensures !IsUpper(c) ==> r == c
  {
    if IsUpper(c) then (c as int + 32) as char else c
  }

  function ToLower(s: string): (r: string)
    ensures |r| == |s|
    ensures forall i | 0 <= i < |r| :: !IsUpper(r[i])
    ensures (forall i | 0 <= i < |s| :: !IsUpper(s[i])) ==> r == s
  {
    seq(|s|, i requires 0 <= i < |s| => ToLowerChar(s[i]))
  }

  /** Lower-casing commutes with concatenation, so a lowered search text can be assembled piecewise. */
  lemma ToLowerConcat(a: string, b: string)
    ensures ToLower(a + b) == ToLower(a) + ToLower(b)
  {
    var l, r := ToLower(a + b), ToLower(a) + ToLower(b);
    assert |l| == |r|;
    forall i | 0 <= i < |l|
      ensures l[i] == r[i]
    {
      if i < |a| {
        assert (a + b)[i] == a[i];
      } else {
        assert (a + b)[i] == b[i - |a|];
      }
    }
  }

  /** Lowering never turns a blank character into a non-blank one or back. */
  lemma ToLowerKeepsSpaces(s: string)
    ensures forall i | 0 <= i < |s| :: IsSpace(ToLower(s)[i]) <==> IsSpace(s[i])
  {
  }

  /** `t` occurs in `s` starting at index `i`. */
  predicate MatchAt(s: string, t: string, i: int)
  {
    0 <= i && i + |t| <= |s| && s[i..i + |t|] == t
  }

  /** `s.includes(t)`: `t` occurs somewhere in `s` (the empty string occurs everywhere). */
  predicate Contains(s: string, t: string)
  {
    exists i | 0 <= i <= |s| :: MatchAt(s, t, i)
  }

  /**
   * `s.indexOf(t)`: the first index at which `t` occurs, or -1. `includes` is `indexOf(t) != -1`,
   * so this scan is an executable reading of `Contains`.
   */
  method IndexOf(s: string, t: string) returns (r: int)
    ensures r == -1 <==> !Contains(s, t)
    ensures r != -1 ==> MatchAt(s, t, r) && forall j | 0 <= j < r :: !MatchAt(s, t, j)
  {
    var i := 0;
    while i + |t| <= |s|
      invariant 0 <= i <= |s| + 1
      invariant forall j | 0 <= j < i :: !MatchAt(s, t, j)
      decreases |s| - i
    {
      if s[i..i + |t|] == t {
        assert MatchAt(s, t, i);
        return i;
      }
      i := i + 1;
    }
    r := -1;
  }

  /** A string contains itself at its end: `(a + b).includes(b)`. */
  lemma ContainsSuffix(a: string, b: string)
    ensures Contains(a + b, b)
  {
    assert (a + b)[|a|..|a| + |b|] == b;
    assert MatchAt(a + b, b, |a|);
  }

  /** Whatever contains `t + u` contains `t`. */
  lemma ContainsPrefix(s: string, t: string, u: string)
    requires Contains(s, t + u)
    ensures Contains(s, t)
  {
    var i :| 0 <= i <= |s| && MatchAt(s, t + u, i);
    assert s[i..i + |t|] == (t + u)[..|t|];
    assert MatchAt(s, t, i);
  }

  /** `trimStart`: drops the leading blanks and nothing else. */
  function TrimStart(s: string): (r: string)
    ensures |r| <= |s| && r == s[|s| - |r|..]
    ensures forall k | 0 <= k < |s| - |r| :: IsSpace(s[k])
    ensures r == [] || !IsSpace(r[0])
    decreases |s|
  {
    if |s| > 0 && IsSpace(s[0]) then TrimStart(s[1..]) else s
  }

  /** `trimEnd`: drops the trailing blanks and nothing else. */
  function TrimEnd(s: string): (r: string)
    ensures |r| <= |s| && r == s[..|r|]
    ensures forall k | |r| <= k < |s| :: IsSpace(s[k])
    ensures r == [] || !IsSpace(r[|r| - 1])
    decreases |s|
  {
    if |s| > 0 && IsSpace(s[|s| - 1]) then TrimEnd(s[..|s| - 1]) else s
  }

  /**
   * `trim`: a contiguous piece of `s` that neither starts nor ends with a blank, and that is
   * empty exactly when `s` is blank throughout.
   */
  function Trim(s: string): (r: string)
    ensures r == [] <==> forall k | 0 <= k < |s| :: IsSpace(s[k])
    ensures r != [] ==> !IsSpace(r[0]) && !IsSpace(r[|r| - 1])
    ensures Contains(s, r)
  {
    TrimOccurs(s, TrimStart(s));
    TrimEnd(TrimStart(s))
  }

  /**
   * `trim` removes only blanks, and only at the two ends: the result sits in `s` with nothing but
   * blanks before it and after it.
   */
  lemma TrimStripsOnlyBlanks(s: string)
    ensures exists i | 0 <= i <= |s| :: BlankAround(s, Trim(s), i)
  {
    var t := TrimStart(s);
    BlankAroundParts(s, t, TrimEnd(t));
    assert BlankAround(s, Trim(s), |s| - |t|);
  }

  /** A leading-blank-free suffix `t` of `s`, cut before its trailing blanks, has only blanks around it. */
  lemma BlankAroundParts(s: string, t: string, r: string)
    requires |t| <= |s| && t == s[|s| - |t|..] && forall k | 0 <= k < |s| - |t| :: IsSpace(s[k])
    requires |r| <= |t| && r == t[..|r|] && forall k | |r| <= k < |t| :: IsSpace(t[k])
    ensures BlankAround(s, r, |s| - |t|)
  {
    var a := |s| - |t|;
    assert s[a..a + |r|] == r;
    assert s[a + |r|..] == t[|r|..];
    TailBlank(t, r);
  }

  lemma TailBlank(t: string, r: string)
    requires |r| <= |t| && forall k | |r| <= k < |t| :: IsSpace(t[k])
    ensures Blank(t[|r|..])
  {
    var u := t[|r|..];
    forall k | 0 <= k < |u|
      ensures IsSpace(u[k])
    {
      assert u[k] == t[|r| + k];
    }
  }

  /** `t` occurs in `s` at `i` with only blanks before and after it. */
  predicate BlankAround(s: string, t: string, i: int)
  {
    MatchAt(s, t, i) && Blank(s[..i]) && Blank(s[i + |t|..])
  }

  /** `!s.trim()`: every character is white space, which by `Trim`'s contract is `Trim(s) == []`. */
  predicate Blank(s: string)
  {
    forall k | 0 <= k < |s| :: IsSpace(s[k])
  }

  /** `TrimEnd` of the leading-trimmed suffix `t` of `s` occurs in `s`, where `t` starts. */
  lemma TrimOccurs(s: string, t: string)
    requires |t| <= |s| && t == s[|s| - |t|..]
    requires forall k | 0 <= k < |s| - |t| :: IsSpace(s[k])
    requires t == [] || !IsSpace(t[0])
    ensures TrimEnd(t) == [] <==> forall k | 0 <= k < |s| :: IsSpace(s[k])
    ensures TrimEnd(t) != [] ==> !IsSpace(TrimEnd(t)[0])
    ensures Contains(s, TrimEnd(t))
  {
    TrimEndOfSuffix(s, t);
    assert MatchAt(s, TrimEnd(t), |s| - |t|);
  }

  /** How `TrimEnd` of the leading-trimmed suffix `t` of `s` sits inside `s`. */
  lemma TrimEndOfSuffix(s: string, t: string)
    requires |t| <= |s| && t == s[|s| - |t|..]
    requires forall k | 0 <= k < |s| - |t| :: IsSpace(s[k])
    requires t == [] || !IsSpace(t[0])
    ensures TrimEnd(t) == [] <==> forall k | 0 <= k < |s| :: IsSpace(s[k])
    ensures TrimEnd(t) != [] ==> !IsSpace(TrimEnd(t)[0])
    ensures TrimEnd(t) == s[|s| - |t|..|s| - |t| + |TrimEnd(t)|]
  {
    var r := TrimEnd(t);
    var a := |s| - |t|;
    assert forall k | a <= k < |s| :: s[k] == t[k - a];
    if r != [] {
      assert r[0] == t[0];
      assert !IsSpace(s[a]);
    }
  }

  /** `parts.join(sep)`: the parts with one separator between neighbours. */
  function Join(parts: seq<string>, sep: char): string
  {
    if |parts| == 0 then ""
    else if |parts| == 1 then parts[0]
    else parts[0] + [sep] + Join(parts[1..], sep)
  }

  /** The first position of `c` in `s`. */
  function FirstIndexOf(s: string, c: char): (k: nat)
    requires c in s
    ensures k < |s| && s[k] == c && c !in s[..k]
  {
    if s[0] == c then 0
    else
      var k := 1 + FirstIndexOf(s[1..], c);
      assert s[..k] == [s[0]] + s[1..][..k - 1];
      k
  }

  /**
   * `s.split(sep)` for a one-character separator: at least one part, no part holds the
   * separator, and joining the parts back gives `s` again.
   */
  function Split(s: string, sep: char): (parts: seq<string>)
    ensures |parts| >= 1
    ensures forall i | 0 <= i < |parts| :: sep !in parts[i]
    ensures Join(parts, sep) == s
    decreases |s|
  {
    if sep !in s then [s]
    else
      var k := FirstIndexOf(s, sep);
      var rest := Split(s[k + 1..], sep);
      assert s == s[..k] + [sep] + s[k + 1..];
      [s[..k]] + rest
  }

  /** The first part of a split is the prefix of `s` before the first separator (all of `s` if none). */
  lemma SplitHead(s: string, sep: char)
    ensures Split(s, sep)[0] <= s
    ensures |Split(s, sep)[0]| < |s| ==> s[|Split(s, sep)[0]|] == sep
    ensures sep !in Split(s, sep)[0]
  {
    var parts := Split(s, sep);
    if |parts| > 1 {
      assert Join(parts, sep) == parts[0] + [sep] + Join(parts[1..], sep);
    }
  }

  function DigitChar(d: int): (c: char)
    requires 0 <= d < 10
    ensures IsDigit(c)
  {
    ('0' as int + d) as char
  }

  /** The number a string of decimal digits spells; a non-digit reads as 0. */
  function DigitsValue(s: string): nat
  {
    if s == [] then 0
    else
      var c := s[|s| - 1];
      DigitsValue(s[..|s| - 1]) * 10 + (if IsDigit(c) then c as int - '0' as int else 0)
  }

  /**
   * `String(n)` for a non-negative integer: a non-empty run of digits that reads back as `n`,
   * with no leading zero except for `n == 0` itself.
   */
  function DecimalString(n: nat): (s: string)
    ensures |s| >= 1 && forall i | 0 <= i < |s| :: IsDigit(s[i])
    ensures DigitsValue(s) == n
    ensures s[0] == '0' <==> n == 0
    ensures |s| > 1 ==> s[0] != '0'
    decreases n
  {
    if n < 10 then [DigitChar(n)]
    else
      var s := DecimalString(n / 10) + [DigitChar(n % 10)];
      assert s[..|s| - 1] == DecimalString(n / 10);
      s
  }
}
