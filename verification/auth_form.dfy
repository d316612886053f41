/** The checks the sign-in / sign-up form makes before it calls the
    authentication service. */
module AuthForm {
  import opened Common
  import opened Text

  // ------------------------------------------------------ the email pattern

  /** The characters `\s` matches in a JavaScript regular expression. */
  predicate IsSpace(c: char)
  {
    var n := c as int;
    n == 0x09 || n == 0x0A || n == 0x0B || n == 0x0C || n == 0x0D || n == 0x20
    || n == 0xA0 || n == 0x1680 || (0x2000 <= n <= 0x200A) || n == 0x2028 || n == 0x2029
    || n == 0x202F || n == 0x205F || n == 0x3000 || n == 0xFEFF
  }

  /** The class `[^\s@]`. */
  predicate Plain(c: char)
  {
    !IsSpace(c) && c != '@'
  }

  predicate AllPlain(t: string)
  {
    forall i :: 0 <= i < |t| ==> Plain(t[i])
  }

  /** `^[^\s@]+@[^\s@]+\.[^\s@]+$` read literally: a non-empty run of plain
      characters, '@', a non-empty run, '.', a non-empty run, and nothing else. */
  ghost predicate EmailPattern(s: string)
  {
    exists k, m :: 0 < k && k + 1 < m && m + 1 < |s|
      && AllPlain(s[..k]) && s[k] == '@' && AllPlain(s[k + 1..m]) && s[m] == '.' && AllPlain(s[m + 1..])
  }

  /** The first position of `c` in `s`, or |s| when there is none. */
  function IndexOf(s: string, c: char): (r: nat)
    ensures r <= |s|
    ensures r < |s| ==> s[r] == c
    ensures forall i :: 0 <= i < r ==> s[i] != c
  {
    if s == [] then 0
    else if s[0] == c then 0
    else 1 + IndexOf(s[1..], c)
  }

  /** The domain part of a match: plain characters with a '.' that is
      neither its first nor its last character. */
  predicate DomainOk(d: string)
  {
    AllPlain(d) && |d| >= 3 && IndexOf(d[1..|d| - 1], '.') < |d| - 2
  }

  /** The test the form runs on the address: split at the first '@'. */
  predicate ValidEmail(s: string)
  {
    var k := IndexOf(s, '@');
    0 < k < |s| && AllPlain(s[..k]) && DomainOk(s[k + 1..])
  }

  /** An address the split test accepts matches the pattern. */
  lemma ValidEmailMatches(s: string)
    requires ValidEmail(s)
    ensures EmailPattern(s)
  {
    var k := IndexOf(s, '@');
    var d := s[k + 1..];
    var j := IndexOf(d[1..|d| - 1], '.');
    var m := k + 2 + j;
    assert s[m] == d[1..|d| - 1][j];
    assert s[k + 1..m] == d[..j + 1];
    assert s[m + 1..] == d[j + 2..];
    assert AllPlain(s[k + 1..m]) && AllPlain(s[m + 1..]);
  }

  /** An address the pattern matches passes the split test. */
  lemma MatchIsValidEmail(s: string, k: nat, m: nat)
    requires 0 < k && k + 1 < m && m + 1 < |s|
    requires AllPlain(s[..k]) && s[k] == '@' && AllPlain(s[k + 1..m]) && s[m] == '.' && AllPlain(s[m + 1..])
    ensures ValidEmail(s)
  {
    assert forall i :: 0 <= i < k ==> s[..k][i] == s[i];
    assert IndexOf(s, '@') == k;
    var d := s[k + 1..];
    assert AllPlain(d) by {
      forall i | 0 <= i < |d|
        ensures Plain(d[i])
      {
        if k + 1 + i < m {
          assert d[i] == s[k + 1..m][i];
        } else if k + 1 + i > m {
          assert d[i] == s[m + 1..][i - (m - k)];
        }
      }
    }
    var inner := d[1..|d| - 1];
    assert inner[m - k - 2] == '.';
    assert IndexOf(inner, '.') <= m - k - 2;
  }

  /** The split test accepts exactly the strings the pattern matches. */
  lemma ValidEmailIsPattern(s: string)
    ensures ValidEmail(s) <==> EmailPattern(s)
  {
    if ValidEmail(s) {
      ValidEmailMatches(s);
    }
    if EmailPattern(s) {
      var k, m :| 0 < k && k + 1 < m && m + 1 < |s|
        && AllPlain(s[..k]) && s[k] == '@' && AllPlain(s[k + 1..m]) && s[m] == '.' && AllPlain(s[m + 1..]);
      MatchIsValidEmail(s, k, m);
    }
  }

  /** What a match looks like: no whitespace, a single '@', which is not the
      first character, and a '.' after it. */
  lemma PatternShape(s: string)
    requires EmailPattern(s)
    ensures forall i :: 0 <= i < |s| ==> !IsSpace(s[i])
    ensures exists k :: (0 < k < |s| && s[k] == '@' && (forall i :: 0 <= i < |s| && s[i] == '@' ==> i == k)
      && exists m :: k + 1 < m < |s| - 1 && s[m] == '.')
  {
    var k, m :| 0 < k && k + 1 < m && m + 1 < |s|
      && AllPlain(s[..k]) && s[k] == '@' && AllPlain(s[k + 1..m]) && s[m] == '.' && AllPlain(s[m + 1..]);
    forall i | 0 <= i < |s|
      ensures !IsSpace(s[i]) && (i != k ==> s[i] != '@')
    {
      if i < k {
        assert s[i] == s[..k][i];
      } else if k < i < m {
        assert s[i] == s[k + 1..m][i - k - 1];
      } else if i > m {
        assert s[i] == s[m + 1..][i - m - 1];
      }
    }
  }

  // ----------------------------------------------------------- the form

  const EmailRequired := "Email is required"
  const EmailInvalid := "Invalid email address"
  const PasswordRequired := "Password is required"
  const PasswordTooShort := "Password must be at least 6 characters"
  const DisplayNameTooShort := "Display name must be at least 2 characters"

  /** The error record: one message per field at most. */
  datatype FormErrors = FormErrors(email: Option<string>, password: Option<string>, displayName: Option<string>)

  /** The record the form keeps, and whether it came out empty. */
  datatype Validation = Validation(errors: FormErrors, ok: bool)

  /** validateForm. Lengths are JavaScript string lengths, in UTF-16 code units. */
  function ValidateForm(email: string, password: string, displayName: string, isLogin: bool): (r: Validation)
    ensures r.ok <==> r.errors == FormErrors(None, None, None)
    ensures r.errors.email == Some(EmailRequired) <==> email == ""
    ensures r.errors.email == Some(EmailInvalid) <==> email != "" && !EmailPattern(email)
    ensures r.errors.email == None <==> EmailPattern(email)
    ensures r.errors.password == Some(PasswordRequired) <==> password == ""
    ensures r.errors.password == Some(PasswordTooShort) <==> password != "" && Utf16Length(password) < 6
    ensures r.errors.password == None <==> Utf16Length(password) >= 6
    // the display name is checked on sign-up only, and only when filled in
    ensures r.errors.displayName == None || r.errors.displayName == Some(DisplayNameTooShort)
    ensures r.errors.displayName == Some(DisplayNameTooShort) <==>
      !isLogin && displayName != "" && Utf16Length(displayName) < 2
  {
    ValidEmailIsPattern(email);
    var emailError :=
      if email == "" then Some(EmailRequired)
      else if !ValidEmail(email) then Some(EmailInvalid)
      else None;
    var passwordError :=
      if password == "" then Some(PasswordRequired)
      else if Utf16Length(password) < 6 then Some(PasswordTooShort)
      else None;
    var nameError :=
      if !isLogin && displayName != "" && Utf16Length(displayName) < 2 then Some(DisplayNameTooShort)
      else None;
    var errors := FormErrors(emailError, passwordError, nameError);
    Validation(errors, emailError.None? && passwordError.None? && nameError.None?)
  }

  /** Sign-in never reports the display name, whatever it holds. */
  lemma LoginIgnoresDisplayName(email: string, password: string, a: string, b: string)
    ensures ValidateForm(email, password, a, true) == ValidateForm(email, password, b, true)
  {
  }
}
