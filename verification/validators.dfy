/** The input patterns of the auth forms, read as the regular expressions
    they are: the new-password policy, the sign-up email pattern (ASCII,
    case-insensitive) and the looser sign-in email pattern. */
module Validators {
  import opened Text

  // ------------------------------------------------------------ password

  /** `[!@#$%^&*]`. */
  predicate IsSpecial(c: char) {
    c == '!' || c == '@' || c == '#' || c == '$' || c == '%' || c == '^' || c == '&' || c == '*'
  }

  /** `[a-zA-Z0-9!@#$%^&*]`. */
  predicate IsPasswordChar(c: char) {
    IsLetter(c) || IsDigit(c) || IsSpecial(c)
  }

  /** `^(?=.*[a-z])(?=.*[A-Z])(?=.*[0-9])(?=.*[!@#$%^&*])[a-zA-Z0-9!@#$%^&*]{6,}$`:
      six or more allowed characters, among them a lower-case letter, an
      upper-case letter, a digit and a special character. (The lookaheads'
      `.` stops at a line break, but a line break already fails the class.) */
  predicate PasswordPattern(s: string) {
    && |s| >= 6
    && (forall k :: 0 <= k < |s| ==> IsPasswordChar(s[k]))
    && (exists k :: 0 <= k < |s| && IsLower(s[k]))
    && (exists k :: 0 <= k < |s| && IsUpper(s[k]))
    && (exists k :: 0 <= k < |s| && IsDigit(s[k]))
    && (exists k :: 0 <= k < |s| && IsSpecial(s[k]))
  }

  /** The pattern decided in one left-to-right pass. */
  method MatchesPasswordPattern(s: string) returns (ok: bool)
    ensures ok <==> PasswordPattern(s)
  {
    var lower, upper, digit, special, allowed := false, false, false, false, true;
    var i := 0;
    while i < |s|
      invariant 0 <= i <= |s|
      invariant lower <==> exists k :: 0 <= k < i && IsLower(s[k])
      invariant upper <==> exists k :: 0 <= k < i && IsUpper(s[k])
      invariant digit <==> exists k :: 0 <= k < i && IsDigit(s[k])
      invariant special <==> exists k :: 0 <= k < i && IsSpecial(s[k])
      invariant allowed <==> forall k :: 0 <= k < i ==> IsPasswordChar(s[k])
    {
      var c := s[i];
      lower := lower || IsLower(c);
      upper := upper || IsUpper(c);
      digit := digit || IsDigit(c);
      special := special || IsSpecial(c);
      allowed := allowed && IsPasswordChar(c);
      i := i + 1;
    }
    ok := allowed && |s| >= 6 && lower && upper && digit && special;
  }

  // ------------------------------------------------------------ sign-up email

  /** `[A-Z0-9._%+-]` under the `i` flag. */
  predicate IsLocalChar(c: char) {
    IsLetter(c) || IsDigit(c) || c == '.' || c == '_' || c == '%' || c == '+' || c == '-'
  }

  /** `[A-Z0-9.-]` under the `i` flag. */
  predicate IsDomainChar(c: char) {
    IsLetter(c) || IsDigit(c) || c == '.' || c == '-'
  }

  /** `^[A-Z0-9._%+-]+@[A-Z0-9.-]+\.[A-Z]{2,}$` matched with the `@` at `a`
      and the escaped dot at `d`. */
  predicate SignUpEmailAt(s: string, a: int, d: int) {
    && 0 < a && a + 1 < d && d + 2 < |s|
    && s[a] == '@' && s[d] == '.'
    && (forall k :: 0 <= k < a ==> IsLocalChar(s[k]))
    && (forall k :: a < k < d ==> IsDomainChar(s[k]))
    && (forall k :: d < k < |s| ==> IsLetter(s[k]))
  }

  /** The sign-up pattern: some choice of `@` and dot matches. */
  predicate SignUpEmail(s: string) {
    exists a, d | 0 <= a < |s| && 0 <= d < |s| :: SignUpEmailAt(s, a, d)
  }

  /** The first position of `c`, or `|s|` when there is none. */
  function IndexOf(s: string, c: char): (i: nat)
    ensures i <= |s|
    ensures i < |s| ==> s[i] == c
    ensures forall k :: 0 <= k < i ==> s[k] != c
    decreases |s|
  {
    if |s| == 0 then 0
    else if s[0] == c then 0
    else 1 + IndexOf(s[1..], c)
  }

  /** The last position of `c`, or -1 when there is none. */
  function LastIndexOf(s: string, c: char): (i: int)
    ensures -1 <= i < |s|
    ensures i >= 0 ==> s[i] == c
    ensures forall k :: i < k < |s| ==> s[k] != c
    decreases |s|
  {
    if |s| == 0 then -1
    else if s[|s| - 1] == c then |s| - 1
    else LastIndexOf(s[..|s| - 1], c)
  }

  /** The pattern decided without search: the `@` must be the first one,
      since neither class admits `@`, and the dot the last one, since the
      top-level domain is letters only. */
  predicate SignUpEmailDirect(s: string) {
    SignUpEmailAt(s, IndexOf(s, '@'), LastIndexOf(s, '.'))
  }

  lemma SignUpEmailDirectIff(s: string)
    ensures SignUpEmailDirect(s) <==> SignUpEmail(s)
  {
    if SignUpEmail(s) {
      var a, d :| SignUpEmailAt(s, a, d);
      assert SignUpEmailAt(s, a, d);
      assert forall k :: 0 <= k < a ==> s[k] != '@' by {
        forall k | 0 <= k < a ensures s[k] != '@' {
          assert IsLocalChar(s[k]);
        }
      }
      assert forall k :: d < k < |s| ==> s[k] != '.' by {
        forall k | d < k < |s| ensures s[k] != '.' {
          assert IsLetter(s[k]);
        }
      }
      assert IndexOf(s, '@') == a;
      assert LastIndexOf(s, '.') == d;
    }
  }

  // ------------------------------------------------------------ sign-in email

  /** JavaScript's `\s`: the white space and line terminator characters. */
  predicate IsJsSpace(c: char) {
    || c == ' ' || c == '\t' || c == '\n' || c == '\r' || c == '\U{B}' || c == '\U{C}'
    || c == '\U{A0}' || c == '\U{1680}' || ('\U{2000}' <= c <= '\U{200A}')
    || c == '\U{2028}' || c == '\U{2029}' || c == '\U{202F}' || c == '\U{205F}'
    || c == '\U{3000}' || c == '\U{FEFF}'
  }

  /** `[^\s@]`. */
  predicate IsPlainChar(c: char) {
    !IsJsSpace(c) && c != '@'
  }

  /** `^[^\s@]+@[^\s@]+\.[^\s@]+$` matched with the `@` at `a` and the
      escaped dot at `d`. */
  predicate SignInEmailAt(s: string, a: int, d: int) {
    && 0 < a && a + 1 < d && d + 1 < |s|
    && s[a] == '@' && s[d] == '.'
    && (forall k :: 0 <= k < |s| && k != a ==> IsPlainChar(s[k]))
  }

  /** The sign-in (and forgotten-password) pattern. */
  predicate SignInEmail(s: string) {
    exists a, d | 0 <= a < |s| && 0 <= d < |s| :: SignInEmailAt(s, a, d)
  }

  /** The sign-in pattern read as plain conditions: no white space, exactly
      one `@` with text before it, and a dot with text on both sides
      somewhere after it. */
  lemma SignInEmailIff(s: string)
    ensures SignInEmail(s) <==>
      && (forall k :: 0 <= k < |s| ==> !IsJsSpace(s[k]))
      && 0 < IndexOf(s, '@') < |s|
      && (forall k :: IndexOf(s, '@') < k < |s| ==> s[k] != '@')
      && (exists d :: IndexOf(s, '@') + 1 < d < |s| - 1 && s[d] == '.')
  {
    var a := IndexOf(s, '@');
    if SignInEmail(s) {
      var a', d :| SignInEmailAt(s, a', d);
      assert SignInEmailAt(s, a', d);
      assert forall k :: 0 <= k < |s| && k != a' ==> s[k] != '@' by {
        forall k | 0 <= k < |s| && k != a' ensures s[k] != '@' {
          assert IsPlainChar(s[k]);
        }
      }
      assert a == a';
    }
    if && (forall k :: 0 <= k < |s| ==> !IsJsSpace(s[k]))
       && 0 < a < |s|
       && (forall k :: a < k < |s| ==> s[k] != '@')
       && (exists d :: a + 1 < d < |s| - 1 && s[d] == '.')
    {
      var d :| a + 1 < d < |s| - 1 && s[d] == '.';
      assert SignInEmailAt(s, a, d);
    }
  }

  /** Every address the sign-up form accepts, the sign-in form accepts too. */
  lemma SignUpEmailIsSignInEmail(s: string)
    requires SignUpEmail(s)
    ensures SignInEmail(s)
  {
    var a, d :| SignUpEmailAt(s, a, d);
    assert SignUpEmailAt(s, a, d);
    assert SignInEmailAt(s, a, d);
  }

  /** The converse fails: a one-letter top-level domain passes sign-in only. */
  lemma SignInEmailIsNotSignUpEmail()
    ensures SignInEmail("a@b.c")
    ensures !SignUpEmail("a@b.c")
  {
    assert SignInEmailAt("a@b.c", 1, 3);
    SignUpEmailDirectIff("a@b.c");
    assert IndexOf("a@b.c", '@') == 1;
    assert LastIndexOf("a@b.c", '.') == 3;
  }
}
