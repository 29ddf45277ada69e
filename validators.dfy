/**
 * The field validators of backend/app/utils/validators.py. Each returns
 * (is_valid, error_message); the first failing check decides the message.
 * Character classes are ASCII.
 */
module Validators {
  import opened Wrappers

  /** The (is_valid, error_message) pair every validator returns. */
  datatype Verdict = Verdict(valid: bool, message: Option<string>)

  predicate WellFormedVerdict(v: Verdict)
  {
    v.valid <==> v.message.None?
  }

  predicate IsUpper(c: char) { 'A' <= c <= 'Z' }
  predicate IsLower(c: char) { 'a' <= c <= 'z' }
  predicate IsLetter(c: char) { IsUpper(c) || IsLower(c) }
  predicate IsDigit(c: char) { '0' <= c <= '9' }

  /** [a-zA-Z0-9._%+-] */
  predicate IsLocalChar(c: char)
  {
    IsLetter(c) || IsDigit(c) || c == '.' || c == '_' || c == '%' || c == '+' || c == '-'
  }

  /** [a-zA-Z0-9.-] */
  predicate IsDomainChar(c: char)
  {
    IsLetter(c) || IsDigit(c) || c == '.' || c == '-'
  }

  predicate AllLocal(s: string) { forall k :: 0 <= k < |s| ==> IsLocalChar(s[k]) }
  predicate AllDomain(s: string) { forall k :: 0 <= k < |s| ==> IsDomainChar(s[k]) }
  predicate AllLetters(s: string) { forall k :: 0 <= k < |s| ==> IsLetter(s[k]) }
  predicate AllDigits(s: string) { forall k :: 0 <= k < |s| ==> IsDigit(s[k]) }

  /** The first position of `c` in `s`. */
  function IndexOf(s: string, c: char): (r: Option<nat>)
    ensures r.Some? ==> r.value < |s| && s[r.value] == c && forall k :: 0 <= k < r.value ==> s[k] != c
    ensures r.None? ==> forall k :: 0 <= k < |s| ==> s[k] != c
  {
    if s == [] then None
    else if s[0] == c then Some(0)
    else
      match IndexOf(s[1..], c)
      case None => None
      case Some(k) => Some(k + 1)
  }

  /** The last position of `c` in `s`. */
  function LastIndexOf(s: string, c: char): (r: Option<nat>)
    ensures r.Some? ==> r.value < |s| && s[r.value] == c && forall k :: r.value < k < |s| ==> s[k] != c
    ensures r.None? ==> forall k :: 0 <= k < |s| ==> s[k] != c
  {
    if s == [] then None
    else if s[|s| - 1] == c then Some(|s| - 1)
    else LastIndexOf(s[..|s| - 1], c)
  }

  // ---------------------------------------------------------------------------
  // validate_ntu_email
  // ---------------------------------------------------------------------------

  /** [a-zA-Z0-9.-]+\.[a-zA-Z]{2,}: some split at a dot into a non-empty domain and a tail of 2+ letters. */
  ghost predicate DomainMatches(d: string)
  {
    exists j :: 0 < j < |d| && d[j] == '.' && AllDomain(d[..j]) && |d| - j - 1 >= 2 && AllLetters(d[j + 1..])
  }

  /** The whole email pattern: some split at an '@' into a non-empty local part and a matching domain. */
  ghost predicate EmailMatches(s: string)
  {
    exists i :: 0 < i < |s| && s[i] == '@' && AllLocal(s[..i]) && DomainMatches(s[i + 1..])
  }

  /** The domain check, done at the last dot (the letters after it contain no dot). */
  function CheckDomain(d: string): bool
  {
    match LastIndexOf(d, '.')
    case None => false
    case Some(j) => j > 0 && AllDomain(d[..j]) && |d| - j - 1 >= 2 && AllLetters(d[j + 1..])
  }

  /** The email check, done at the first '@' (the local part contains no '@'). */
  function CheckEmail(s: string): bool
  {
    match IndexOf(s, '@')
    case None => false
    case Some(i) => i > 0 && AllLocal(s[..i]) && CheckDomain(s[i + 1..])
  }

  /** The letters after the split dot hold no dot, so the split dot is the last one. */
  lemma {:induction false} CheckDomainExact(d: string)
    ensures CheckDomain(d) <==> DomainMatches(d)
  {
    if DomainMatches(d) {
      var j :| 0 < j < |d| && d[j] == '.' && AllDomain(d[..j]) && |d| - j - 1 >= 2 && AllLetters(d[j + 1..]);
      assert forall k :: j < k < |d| ==> d[k] == d[j + 1..][k - j - 1];
      assert LastIndexOf(d, '.') == Some(j);
    }
  }

  /** The local part holds no '@', so the split '@' is the first one. */
  lemma {:induction false} EmailMatchesSplitsAtFirstAt(s: string, i: nat)
    requires i < |s| && s[i] == '@' && AllLocal(s[..i])
    ensures IndexOf(s, '@') == Some(i)
  {
    assert forall k :: 0 <= k < i ==> s[k] == s[..i][k];
  }

  /** Finding the '@' and the dot directly decides exactly the regular expression. */
  lemma {:induction false} CheckEmailExact(s: string)
    ensures CheckEmail(s) <==> EmailMatches(s)
  {
    if EmailMatches(s) {
      var i :| 0 < i < |s| && s[i] == '@' && AllLocal(s[..i]) && DomainMatches(s[i + 1..]);
      EmailMatchesSplitsAtFirstAt(s, i);
      CheckDomainExact(s[i + 1..]);
    }
    if CheckEmail(s) {
      var i := IndexOf(s, '@').value;
      CheckDomainExact(s[i + 1..]);
    }
  }

  /** validate_ntu_email: required, then the format; any domain is accepted. */
  function ValidateEmail(email: string): (r: Verdict)
    ensures WellFormedVerdict(r)
    ensures email == [] ==> r == Verdict(false, Some("Email is required"))
    ensures email != [] ==> (r.valid <==> EmailMatches(email))
    ensures email != [] && !r.valid ==> r.message == Some("Invalid email format")
  {
    CheckEmailExact(email);
    if email == [] then Verdict(false, Some("Email is required"))
    else if !CheckEmail(email) then Verdict(false, Some("Invalid email format"))
    else Verdict(true, None)
  }

  // ---------------------------------------------------------------------------
  // validate_student_id
  // ---------------------------------------------------------------------------

  /** ^[Uu]\d{7}[A-Za-z]$ */
  predicate StudentIdMatches(s: string)
  {
    |s| == 9 && (s[0] == 'U' || s[0] == 'u') && AllDigits(s[1..8]) && IsLetter(s[8])
  }

  function ValidateStudentId(studentId: string): (r: Verdict)
    ensures WellFormedVerdict(r)
    ensures studentId == [] ==> r == Verdict(false, Some("Student ID is required"))
    ensures studentId != [] ==> (r.valid <==> StudentIdMatches(studentId))
    ensures studentId != [] && !r.valid ==> r.message == Some("Invalid student ID format (e.g., U1234567A)")
  {
    if studentId == [] then Verdict(false, Some("Student ID is required"))
    else if !StudentIdMatches(studentId) then Verdict(false, Some("Invalid student ID format (e.g., U1234567A)"))
    else Verdict(true, None)
  }

  /** The example in the error message is itself valid; the wrong length or prefix is not. */
  lemma StudentIdExamples()
    ensures ValidateStudentId("U1234567A").valid
    ensures ValidateStudentId("u7654321z").valid
    ensures !ValidateStudentId("U123456A").valid
    ensures !ValidateStudentId("A1234567B").valid
  {
  }

  // ---------------------------------------------------------------------------
  // validate_phone
  // ---------------------------------------------------------------------------

  /** str.replace(c, ""): every occurrence of `c` removed. */
  function Strip(s: string, c: char): (r: string)
    ensures forall k :: 0 <= k < |r| ==> r[k] != c
  {
    if s == [] then [] else (if s[0] == c then [] else [s[0]]) + Strip(s[1..], c)
  }

  /** Removing `c` leaves no `c` and exactly as many of every other character as before. */
  lemma {:induction false} StripKeepsOthers(s: string, c: char)
    ensures multiset(Strip(s, c))[c] == 0
    ensures forall x :: x != c ==> multiset(Strip(s, c))[x] == multiset(s)[x]
  {
    if s != [] {
      assert s == [s[0]] + s[1..];
      StripKeepsOthers(s[1..], c);
    }
  }

  predicate IsSeparator(c: char) { c == ' ' || c == '-' || c == '+' }

  /** Every space, hyphen and plus sign dropped, all other characters kept in order. */
  function WithoutSeparators(s: string): string
  {
    if s == [] then [] else (if IsSeparator(s[0]) then [] else [s[0]]) + WithoutSeparators(s[1..])
  }

  /** phone.replace(" ", "").replace("-", "").replace("+", "") */
  function CleanPhone(phone: string): (r: string)
    ensures forall x :: IsSeparator(x) ==> multiset(r)[x] == 0
    ensures forall x :: !IsSeparator(x) ==> multiset(r)[x] == multiset(phone)[x]
  {
    StripKeepsOthers(phone, ' ');
    StripKeepsOthers(Strip(phone, ' '), '-');
    StripKeepsOthers(Strip(Strip(phone, ' '), '-'), '+');
    Strip(Strip(Strip(phone, ' '), '-'), '+')
  }

  lemma {:induction false} StripConcat(a: string, b: string, c: char)
    ensures Strip(a + b, c) == Strip(a, c) + Strip(b, c)
  {
    if a == [] {
      assert a + b == b;
    } else {
      assert (a + b)[0] == a[0] && (a + b)[1..] == a[1..] + b;
      StripConcat(a[1..], b, c);
    }
  }

  /** The three chained replacements are one pass that drops the three separators. */
  lemma {:induction false} CleanPhoneDropsSeparators(s: string)
    ensures CleanPhone(s) == WithoutSeparators(s)
  {
    if s != [] {
      var head := if s[0] == ' ' then [] else [s[0]];
      assert Strip(s, ' ') == head + Strip(s[1..], ' ');
      StripConcat(head, Strip(s[1..], ' '), '-');
      var head2 := Strip(head, '-');
      StripConcat(head2, Strip(Strip(s[1..], ' '), '-'), '+');
      CleanPhoneDropsSeparators(s[1..]);
      if head != [] {
        assert head == [s[0]] + [];
      }
      if head2 != [] {
        assert head2 == [s[0]] + [];
      }
    }
  }

  /** ^(65)?[89]\d{7}$ */
  predicate SgMobileMatches(s: string)
  {
    || (|s| == 8 && (s[0] == '8' || s[0] == '9') && AllDigits(s[1..]))
    || (|s| == 10 && s[0] == '6' && s[1] == '5' && (s[2] == '8' || s[2] == '9') && AllDigits(s[3..]))
  }

  function ValidatePhone(phone: string): (r: Verdict)
    ensures WellFormedVerdict(r)
    ensures phone == [] ==> r == Verdict(false, Some("Phone number is required"))
    ensures phone != [] ==> (r.valid <==> SgMobileMatches(WithoutSeparators(phone)))
    ensures phone != [] && !r.valid ==> r.message == Some("Please enter a valid Singapore mobile number")
  {
    CleanPhoneDropsSeparators(phone);
    if phone == [] then Verdict(false, Some("Phone number is required"))
    else if !SgMobileMatches(CleanPhone(phone)) then Verdict(false, Some("Please enter a valid Singapore mobile number"))
    else Verdict(true, None)
  }

  /** A phone number of separators only passes the required check but not the format. */
  lemma SeparatorsOnlyPhone()
    ensures ValidatePhone(" - ") == Verdict(false, Some("Please enter a valid Singapore mobile number"))
  {
    assert WithoutSeparators(" - ") == "";
  }

  // ---------------------------------------------------------------------------
  // validate_password
  // ---------------------------------------------------------------------------

  predicate HasUpper(s: string) { exists k :: 0 <= k < |s| && IsUpper(s[k]) }
  predicate HasLower(s: string) { exists k :: 0 <= k < |s| && IsLower(s[k]) }
  predicate HasDigit(s: string) { exists k :: 0 <= k < |s| && IsDigit(s[k]) }

  /** validate_password: required, length >= 8, an uppercase letter, a lowercase letter, a digit, in that order. */
  function ValidatePassword(password: string): (r: Verdict)
    ensures WellFormedVerdict(r)
    ensures r.valid <==> |password| >= 8 && HasUpper(password) && HasLower(password) && HasDigit(password)
    ensures password == [] ==> r.message == Some("Password is required")
    ensures 0 < |password| < 8 ==> r.message == Some("Password must be at least 8 characters long")
    ensures |password| >= 8 && !HasUpper(password) ==>
      r.message == Some("Password must contain at least one uppercase letter")
    ensures |password| >= 8 && HasUpper(password) && !HasLower(password) ==>
      r.message == Some("Password must contain at least one lowercase letter")
    ensures |password| >= 8 && HasUpper(password) && HasLower(password) && !HasDigit(password) ==>
      r.message == Some("Password must contain at least one number")
  {
    if password == [] then Verdict(false, Some("Password is required"))
    else if |password| < 8 then Verdict(false, Some("Password must be at least 8 characters long"))
    else if !HasUpper(password) then Verdict(false, Some("Password must contain at least one uppercase letter"))
    else if !HasLower(password) then Verdict(false, Some("Password must contain at least one lowercase letter"))
    else if !HasDigit(password) then Verdict(false, Some("Password must contain at least one number"))
    else Verdict(true, None)
  }
}
