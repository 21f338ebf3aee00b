/**
 * The input validators (src/lib/validations.ts) with the limits of
 * src/lib/constants.ts.  Each one is an ordered chain of checks whose
 * first failure is reported.  The regular expressions are modelled
 * exactly: `\S+@\S+\.\S+` as a backtracking search proved equal to its
 * declarative reading, `^[a-zA-Z0-9_]+$` as a character class on every
 * character.  Lengths are JavaScript lengths (UTF-16 code units).
 */
module Validations {
  import opened Wrappers

  /** `{ success, error? }`. */
  datatype ValidationResult = ValidationResult(success: bool, error: Option<string>)

  /** A result either succeeds without an error or fails with one. */
  predicate WellFormed(r: ValidationResult)
  {
    r.success <==> r.error.None?
  }

  function Pass(): (r: ValidationResult)
    ensures WellFormed(r) && r.success
  {
    ValidationResult(true, None)
  }

  function Fail(message: string): (r: ValidationResult)
    ensures WellFormed(r) && !r.success && r.error == Some(message)
  {
    ValidationResult(false, Some(message))
  }

  const MinPasswordLength: nat := 6
  const MinUsernameLength: nat := 3
  const MaxUsernameLength: nat := 20

  /** `String.prototype.length`: a character outside the Basic Multilingual Plane counts twice. */
  function JsLength(s: string): (n: nat)
    ensures |s| <= n <= 2 * |s|
    ensures (forall i :: 0 <= i < |s| ==> s[i] as int <= 0xFFFF) ==> n == |s|
    decreases |s|
  {
    if s == [] then 0
    else (if s[0] as int > 0xFFFF then 2 else 1) + JsLength(s[1..])
  }

  /** JavaScript's `\s`. */
  predicate IsWhitespace(c: char)
  {
    || c == ' ' || c == '\t' || c == '\n' || c == '\r' || c == '\U{000B}' || c == '\U{000C}'
    || c == '\U{00A0}' || c == '\U{1680}' || ('\U{2000}' <= c <= '\U{200A}')
    || c == '\U{2028}' || c == '\U{2029}' || c == '\U{202F}' || c == '\U{205F}'
    || c == '\U{3000}' || c == '\U{FEFF}'
  }

  /**
   * `\S+@\S+\.\S+` matches around the `@` at `at` and the `.` at `dot`:
   * a non-space before the `@`, a non-empty run of non-spaces between the
   * two, and a non-space after the `.`.  Longer runs add nothing.
   */
  ghost predicate EmailMatchAt(s: string, at: int, dot: int)
  {
    && 0 < at && at + 1 < dot && dot + 1 < |s|
    && !IsWhitespace(s[at - 1]) && s[at] == '@' && s[dot] == '.' && !IsWhitespace(s[dot + 1])
    && forall k :: at < k < dot ==> !IsWhitespace(s[k])
  }

  /** `/\S+@\S+\.\S+/.test(s)`, read declaratively. */
  ghost predicate EmailPattern(s: string)
  {
    exists at, dot :: EmailMatchAt(s, at, dot)
  }

  /** Searching from `d` for the `.` that closes a match, while the run of non-spaces since `d - 1` lasts. */
  function DotFrom(s: string, d: nat): bool
    requires d >= 1
    decreases |s| - d
  {
    if d + 1 >= |s| then false
    else if IsWhitespace(s[d - 1]) then false
    else (s[d] == '.' && !IsWhitespace(s[d + 1])) || DotFrom(s, d + 1)
  }

  /** The `.` at `dot` closes a run of non-spaces that starts at `d - 1`. */
  ghost predicate ClosesRun(s: string, d: int, dot: int)
  {
    && 1 <= d <= dot && dot + 1 < |s| && s[dot] == '.' && !IsWhitespace(s[dot + 1])
    && forall k :: d - 1 <= k < dot ==> !IsWhitespace(s[k])
  }

  lemma {:induction false} DotFromMeaning(s: string, d: nat)
    requires d >= 1
    ensures DotFrom(s, d) <==> exists dot :: ClosesRun(s, d, dot)
    decreases |s| - d
  {
    if d + 1 >= |s| {
    } else if IsWhitespace(s[d - 1]) {
    } else {
      DotFromMeaning(s, d + 1);
      if s[d] == '.' && !IsWhitespace(s[d + 1]) {
        assert ClosesRun(s, d, d);
      } else if DotFrom(s, d + 1) {
        var dot :| ClosesRun(s, d + 1, dot);
        assert ClosesRun(s, d, dot);
      }
      if exists dot :: ClosesRun(s, d, dot) {
        var dot :| ClosesRun(s, d, dot);
        if dot != d {
          assert ClosesRun(s, d + 1, dot);
        }
      }
    }
  }

  /** Does a match use the `@` at `at`? */
  function MatchesAtSign(s: string, at: nat): bool
  {
    0 < at < |s| && s[at] == '@' && !IsWhitespace(s[at - 1]) && DotFrom(s, at + 2)
  }

  lemma MatchesAtSignMeaning(s: string, at: nat)
    ensures MatchesAtSign(s, at) <==> exists dot :: EmailMatchAt(s, at, dot)
  {
    DotFromMeaning(s, at + 2);
    if MatchesAtSign(s, at) {
      var dot :| ClosesRun(s, at + 2, dot);
      assert EmailMatchAt(s, at, dot);
    }
    if exists dot :: EmailMatchAt(s, at, dot) {
      var dot :| EmailMatchAt(s, at, dot);
      assert ClosesRun(s, at + 2, dot);
    }
  }

  /** The regular-expression search: try every `@` from position `from` on. */
  function SearchFrom(s: string, from: nat): bool
    decreases |s| - from
  {
    if from >= |s| then false
    else MatchesAtSign(s, from) || SearchFrom(s, from + 1)
  }

  lemma {:induction false} SearchFromMeaning(s: string, from: nat)
    ensures SearchFrom(s, from) <==> exists at, dot :: from <= at && EmailMatchAt(s, at, dot)
    decreases |s| - from
  {
    if from >= |s| {
    } else {
      SearchFromMeaning(s, from + 1);
      MatchesAtSignMeaning(s, from);
      if MatchesAtSign(s, from) {
        var dot :| EmailMatchAt(s, from, dot);
        assert from <= from && EmailMatchAt(s, from, dot);
      }
      if exists at, dot :: from <= at && EmailMatchAt(s, at, dot) {
        var at, dot :| from <= at && EmailMatchAt(s, at, dot);
        if at == from {
          assert MatchesAtSign(s, from);
        } else {
          assert from + 1 <= at && EmailMatchAt(s, at, dot);
        }
      }
    }
  }

  /** `/\S+@\S+\.\S+/.test(s)`, as the search runs it; it agrees with the declarative reading. */
  function EmailTest(s: string): (r: bool)
    ensures r <==> EmailPattern(s)
  {
    SearchFromMeaning(s, 0);
    SearchFrom(s, 0)
  }

  /** validateEmail: required, then the pattern. */
  function ValidateEmail(email: string): (r: ValidationResult)
    ensures WellFormed(r)
    ensures email == "" ==> r == Fail("Email is required")
    ensures email != "" ==> (r.success <==> EmailPattern(email))
    ensures email != "" && !r.success ==> r == Fail("Please enter a valid email address")
  {
    if email == "" then Fail("Email is required")
    else if !EmailTest(email) then Fail("Please enter a valid email address")
    else Pass()
  }

  /** validatePassword: required, then at least six characters. */
  function ValidatePassword(password: string): (r: ValidationResult)
    ensures WellFormed(r)
    ensures r.success <==> JsLength(password) >= MinPasswordLength
    ensures password == "" ==> r == Fail("Password is required")
    ensures password != "" && !r.success ==> r == Fail("Password must be at least 6 characters long")
  {
    if password == "" then Fail("Password is required")
    else if JsLength(password) < MinPasswordLength then Fail("Password must be at least 6 characters long")
    else Pass()
  }

  /** The character class `[a-zA-Z0-9_]`. */
  predicate IsUsernameChar(c: char)
  {
    ('a' <= c <= 'z') || ('A' <= c <= 'Z') || ('0' <= c <= '9') || c == '_'
  }

  /** `/^[a-zA-Z0-9_]+$/.test(s)`. */
  predicate UsernamePattern(s: string)
  {
    |s| > 0 && forall i :: 0 <= i < |s| ==> IsUsernameChar(s[i])
  }

  /**
   * validateUsername: required, at least 3, at most 20, then the character
   * class.  A name that passes has 3 to 20 characters, all from the class.
   */
  function ValidateUsername(username: string): (r: ValidationResult)
    ensures WellFormed(r)
    ensures r.success <==>
      MinUsernameLength <= |username| <= MaxUsernameLength
      && forall i :: 0 <= i < |username| ==> IsUsernameChar(username[i])
    ensures username == "" ==> r == Fail("Username is required")
    ensures username != "" && JsLength(username) < MinUsernameLength ==>
      r == Fail("Username must be at least 3 characters long")
    ensures JsLength(username) >= MinUsernameLength && JsLength(username) > MaxUsernameLength ==>
      r == Fail("Username must be no more than 20 characters long")
    ensures MinUsernameLength <= JsLength(username) <= MaxUsernameLength && !UsernamePattern(username) ==>
      r == Fail("Username can only contain letters, numbers, and underscores")
  {
    if username == "" then Fail("Username is required")
    else if JsLength(username) < MinUsernameLength then Fail("Username must be at least 3 characters long")
    else if JsLength(username) > MaxUsernameLength then Fail("Username must be no more than 20 characters long")
    else if !UsernamePattern(username) then Fail("Username can only contain letters, numbers, and underscores")
    else Pass()
  }

  /** validateAmount on an already-parsed number; None is NaN. */
  function ValidateAmount(amount: Option<real>): (r: ValidationResult)
    ensures WellFormed(r)
    ensures r.success <==> amount.Some? && amount.value > 0.0
    ensures !r.success ==> r == Fail("Amount must be a positive number")
  {
    if amount.None? || amount.value <= 0.0 then Fail("Amount must be a positive number")
    else Pass()
  }

  /** validatePrice on an already-parsed number; None is NaN. */
  function ValidatePrice(price: Option<real>): (r: ValidationResult)
    ensures WellFormed(r)
    ensures r.success <==> price.Some? && price.value > 0.0
    ensures !r.success ==> r == Fail("Price must be a positive number")
  {
    if price.None? || price.value <= 0.0 then Fail("Price must be a positive number")
    else Pass()
  }

  /** validateTradeLimits: both positive (reported first), then minimum below maximum. */
  function ValidateTradeLimits(min: real, max: real): (r: ValidationResult)
    ensures WellFormed(r)
    ensures r.success <==> 0.0 < min < max
    ensures (min <= 0.0 || max <= 0.0) ==> r == Fail("Trade limits must be positive numbers")
    ensures 0.0 < min && 0.0 < max && min >= max ==> r == Fail("Minimum trade limit must be less than maximum")
  {
    if min <= 0.0 || max <= 0.0 then Fail("Trade limits must be positive numbers")
    else if min >= max then Fail("Minimum trade limit must be less than maximum")
    else Pass()
  }

  /** Two concrete readings of the email pattern. */
  lemma EmailExamples()
    ensures EmailPattern("a@b.c")
    ensures !EmailPattern("a@b c.d")
  {
    assert EmailMatchAt("a@b.c", 1, 3);
    assert !EmailTest("a@b c.d");
  }
}
