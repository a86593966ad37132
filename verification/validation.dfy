/** The field rules the forms register: the email pattern `^\S+@\S+\.\S+$`, the
    user password pattern of the registration page, the alphanumeric admin
    password pattern, and the `required` / `minLength` rules as react-hook-form
    applies them (an empty value fails `required` and skips `minLength`). */
module Validation {

  /** JavaScript's `\s`: the Unicode white space and line terminator characters. */
  predicate IsWhitespace(c: char) {
    var n := c as int;
    (9 <= n <= 13) || n == 32 || n == 0xA0 || n == 0x1680 || (0x2000 <= n <= 0x200A)
    || n == 0x2028 || n == 0x2029 || n == 0x202F || n == 0x205F || n == 0x3000 || n == 0xFEFF
  }

  /** The characters `.` does not match in a JavaScript pattern without the `s` flag. */
  predicate IsLineTerminator(c: char) {
    var n := c as int;
    n == 10 || n == 13 || n == 0x2028 || n == 0x2029
  }

  predicate IsLower(c: char) {
    'a' <= c <= 'z'
  }

  predicate IsUpper(c: char) {
    'A' <= c <= 'Z'
  }

  predicate IsAsciiDigit(c: char) {
    '0' <= c <= '9'
  }

  /** The class `[!@#$%^&*()_+\-=[\]{};':"\\|,.<>/?]`. Its thirty characters are
      exactly the ASCII punctuation marks other than backtick and tilde, which
      is how it is written here; `SpecialClassListed` proves the two agree. */
  predicate IsSpecial(c: char) {
    var n := c as int;
    (33 <= n <= 47) || (58 <= n <= 64) || (91 <= n <= 95) || (123 <= n <= 125)
  }

  const SpecialClass: string := "!@#$%^&*()_+-=[]{};':\"\\|,.<>/?"

  lemma SpecialClassListed(c: char)
    ensures IsSpecial(c) <==> c in SpecialClass
  {
  }

  predicate Required(v: string) {
    v != ""
  }

  /** `minLength: n`: an empty value is not checked. */
  predicate MinLength(v: string, n: nat) {
    v == "" || |v| >= n
  }

  /** `^\S+@\S+\.\S+$`: no white space at all, an `@` after at least one
      character, and a `.` with at least one character between it and that `@`
      and at least one after it. */
  predicate IsEmail(s: string) {
    && (forall k :: 0 <= k < |s| ==> !IsWhitespace(s[k]))
    && exists i, j :: 1 <= i && i + 2 <= j <= |s| - 2 && s[i] == '@' && s[j] == '.'
  }

  /** Decides the email pattern in three scans: no white space, then the first
      `@` from index 1, then a `.` in the window that `@` leaves. */
  method CheckEmail(s: string) returns (ok: bool)
    ensures ok <==> IsEmail(s)
  {
    var k := 0;
    while k < |s|
      invariant 0 <= k <= |s|
      invariant forall m :: 0 <= m < k ==> !IsWhitespace(s[m])
    {
      if IsWhitespace(s[k]) {
        return false;
      }
      k := k + 1;
    }
    if |s| < 5 {
      return false;
    }
    var at := 1;
    while at < |s| && s[at] != '@'
      invariant 1 <= at <= |s|
      invariant forall m :: 1 <= m < at ==> s[m] != '@'
    {
      at := at + 1;
    }
    if at == |s| {
      return false;
    }
    var j := at + 2;
    while j <= |s| - 2 && s[j] != '.'
      invariant at + 2 <= j
      invariant j <= |s| - 1 || j == at + 2
      invariant forall m :: at + 2 <= m < j ==> s[m] != '.'
    {
      j := j + 1;
    }
    ok := j <= |s| - 2;
  }

  /** The registration page's password pattern
      `^(?=.*[a-z])(?=.*[A-Z])(?=.*\d)(?=.*[special]).{8,}$`: at least eight
      characters, none a line terminator, with a lower-case letter, an
      upper-case letter, a digit and a special character. */
  predicate StrongPassword(s: string) {
    && |s| >= 8
    && (forall k :: 0 <= k < |s| ==> !IsLineTerminator(s[k]))
    && (exists k :: 0 <= k < |s| && IsLower(s[k]))
    && (exists k :: 0 <= k < |s| && IsUpper(s[k]))
    && (exists k :: 0 <= k < |s| && IsAsciiDigit(s[k]))
    && (exists k :: 0 <= k < |s| && IsSpecial(s[k]))
  }

  /** Decides the registration password pattern in one scan. */
  method CheckStrongPassword(s: string) returns (ok: bool)
    ensures ok <==> StrongPassword(s)
  {
    var lower, upper, digit, special := false, false, false, false;
    var k := 0;
    while k < |s|
      invariant 0 <= k <= |s|
      invariant forall m :: 0 <= m < k ==> !IsLineTerminator(s[m])
      invariant lower <==> exists m :: 0 <= m < k && IsLower(s[m])
      invariant upper <==> exists m :: 0 <= m < k && IsUpper(s[m])
      invariant digit <==> exists m :: 0 <= m < k && IsAsciiDigit(s[m])
      invariant special <==> exists m :: 0 <= m < k && IsSpecial(s[m])
    {
      var c := s[k];
      if IsLineTerminator(c) {
        return false;
      }
      lower := lower || IsLower(c);
      upper := upper || IsUpper(c);
      digit := digit || IsAsciiDigit(c);
      special := special || IsSpecial(c);
      k := k + 1;
    }
    ok := |s| >= 8 && lower && upper && digit && special;
  }

  /** The admin password pattern `^(?=.*[A-Za-z])(?=.*\d)[A-Za-z\d]{8,}$`: at
      least eight characters, all ASCII letters or digits, with at least one
      letter and one digit. */
  predicate AdminPassword(s: string) {
    && |s| >= 8
    && (forall k :: 0 <= k < |s| ==> IsLower(s[k]) || IsUpper(s[k]) || IsAsciiDigit(s[k]))
    && (exists k :: 0 <= k < |s| && (IsLower(s[k]) || IsUpper(s[k])))
    && (exists k :: 0 <= k < |s| && IsAsciiDigit(s[k]))
  }

  /** No password satisfies both policies: the user policy demands a special
      character and the admin policy forbids every one. */
  lemma PasswordPoliciesDisjoint(s: string)
    ensures !(StrongPassword(s) && AdminPassword(s))
  {

  }

  lemma EmailExamples()
    ensures IsEmail("a@b.c")
    ensures !IsEmail("@b.c")
    ensures !IsEmail("a@.c")
    ensures !IsEmail("a b@c.d")
  {
    assert "a@b.c"[1] == '@' && "a@b.c"[3] == '.';
    assert "a b@c.d"[1] == ' ';
  }

  lemma PasswordExamples()
    ensures StrongPassword("Passw0rd!")
    ensures !StrongPassword("Passw0rd~")
    ensures AdminPassword("Passw0rd")
    ensures !AdminPassword("Passw0rd!")
  {
    var p := "Passw0rd!";
    assert IsLower(p[1]) && IsUpper(p[0]) && IsAsciiDigit(p[5]) && IsSpecial(p[8]);
    var t := "Passw0rd~";
    assert forall k :: 0 <= k < |t| ==> !IsSpecial(t[k]);
    var a := "Passw0rd";
    assert IsUpper(a[0]) && IsAsciiDigit(a[5]);
    assert !(IsLower(p[8]) || IsUpper(p[8]) || IsAsciiDigit(p[8]));
  }
}
