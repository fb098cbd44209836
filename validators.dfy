/**
 * The field validators of src/utils/validators.js: the e-mail and phone
 * patterns, the password rules with their fixed messages and strength
 * levels, and the required / minimum / maximum length checks that return a
 * message or null.
 */
module Validators {
  import opened JsText
  import opened JsValue

  // ---------------------------------------------------------------- isValidEmail

  /** `[^\s@]`: neither white space nor '@'. */
  predicate Plain(c: char) { !IsWhiteSpace(c) && c != '@' }

  predicate AllPlain(t: string) { forall k :: 0 <= k < |t| ==> Plain(t[k]) }

  /** A match of `/^[^\s@]+@[^\s@]+\.[^\s@]+$/`: a non-empty plain run, '@',
      a non-empty plain run, '.', and a non-empty plain run, filling the whole
      string. */
  ghost predicate EmailShape(s: string) {
    exists i, j :: EmailAt(s, i, j)
  }

  /** The match that puts the '@' at i and the '.' at j. */
  predicate EmailAt(s: string, i: int, j: int) {
    0 < i && i + 1 < j < |s| - 1 && s[i] == '@' && s[j] == '.'
    && AllPlain(s[..i]) && AllPlain(s[i + 1..j]) && AllPlain(s[j + 1..])
  }

  /** `isValidEmail(email)`, deciding the pattern in one pass: the first '@'
      splits the string into a non-empty plain local part and a plain domain
      with a dot strictly inside it. */
  function IsValidEmail(email: string): (ok: bool)
    ensures ok <==> EmailShape(email)
  {
    EmailDecides(email);
    EmailSplitOk(email, IndexOf(email, '@'))
  }

  /** The one-pass test on the first '@'. */
  predicate EmailSplitOk(email: string, at: int)
    requires -1 <= at < |email|
  {
    var domain := if at < 0 then "" else email[at + 1..];
    at > 0 && AllPlain(email[..at]) && AllPlain(domain) && |domain| >= 3 && '.' in domain[1..|domain| - 1]
  }

  lemma EmailDecides(email: string)
    ensures EmailSplitOk(email, IndexOf(email, '@')) <==> EmailShape(email)
  {
    if EmailSplitOk(email, IndexOf(email, '@')) {
      EmailSound(email);
    }
    if EmailShape(email) {
      var i, j :| EmailAt(email, i, j);
      EmailComplete(email, i, j);
    }
  }

  /** Cutting one character out of a plain run leaves two plain runs. */
  lemma PlainSplit(s: string, a: int, j: int)
    requires 0 <= a <= j < |s| && AllPlain(s[a..])
    ensures AllPlain(s[a..j]) && AllPlain(s[j + 1..])
  {
    var rest, head, tail := s[a..], s[a..j], s[j + 1..];
    forall k | 0 <= k < |head| ensures Plain(head[k]) {
      assert head[k] == rest[k];
    }
    forall k | 0 <= k < |tail| ensures Plain(tail[k]) {
      assert tail[k] == rest[k + j + 1 - a];
    }
  }

  /** A string passing the one-pass test matches the pattern. */
  lemma EmailSound(email: string)
    requires EmailSplitOk(email, IndexOf(email, '@'))
    ensures EmailShape(email)
  {
    var at := IndexOf(email, '@');
    var domain := email[at + 1..];
    var inner := domain[1..|domain| - 1];
    assert at > 0 && AllPlain(email[..at]) && AllPlain(domain) && |domain| >= 3 && '.' in inner;
    var d := IndexOf(inner, '.');
    assert 0 <= d < |inner| && inner[d] == '.';
    var j := at + 2 + d;
    assert email[j] == '.' by {
      assert email[j] == domain[d + 1] == inner[d];
    }
    PlainSplit(email, at + 1, j);
    assert EmailAt(email, at, j);
  }

  /** A match of the pattern passes the one-pass test: its '@' is the first. */
  lemma EmailComplete(email: string, i: int, j: int)
    requires 0 < i && i + 1 < j < |email| - 1 && email[i] == '@' && email[j] == '.'
    requires AllPlain(email[..i]) && AllPlain(email[i + 1..j]) && AllPlain(email[j + 1..])
    ensures EmailSplitOk(email, IndexOf(email, '@'))
  {
    PlainHasNoAt(email[..i]);
    IndexOfFirst(email, '@', i);
    var domain := email[i + 1..];
    PlainAround(email, i + 1, j);
    assert domain[1..|domain| - 1][j - i - 2] == '.';
  }

  /** A plain run holds no '@'. */
  lemma PlainHasNoAt(t: string)
    requires AllPlain(t)
    ensures '@' !in t
  {
    forall k | 0 <= k < |t| ensures t[k] != '@' {
      assert Plain(t[k]);
    }
  }

  /** Two plain runs around one plain character make a plain run. */
  lemma PlainAround(s: string, a: int, j: int)
    requires 0 <= a <= j < |s| && Plain(s[j])
    requires AllPlain(s[a..j]) && AllPlain(s[j + 1..])
    ensures AllPlain(s[a..])
  {
    forall k | 0 <= k < |s| - a ensures Plain(s[a..][k]) {
      if k < j - a {
        assert s[a..][k] == s[a..j][k];
      } else if k > j - a {
        assert s[a..][k] == s[j + 1..][k - (j - a) - 1];
      }
    }
  }

  // ---------------------------------------------------------------- isValidPhone

  /** `[\d\s\-()]` */
  predicate PhoneChar(c: char) { IsAsciiDigit(c) || IsWhiteSpace(c) || c == '-' || c == '(' || c == ')' }

  /** `s.replace(/\D/g, '')`: the ASCII digits of s, in order. */
  function DigitsOnly(s: string): (r: string)
    ensures |r| <= |s|
    ensures forall k :: 0 <= k < |r| ==> IsAsciiDigit(r[k])
    ensures IsSubsequence(r, s)
    ensures forall k :: 0 <= k < |s| && IsAsciiDigit(s[k]) ==> s[k] in r
  {
    if s == [] then ""
    else
      var rest := DigitsOnly(s[1..]);
      assert forall k :: 1 <= k < |s| ==> s[k] == s[1..][k - 1];
      if IsAsciiDigit(s[0]) then
        assert ([s[0]] + rest)[1..] == rest;
        [s[0]] + rest
      else rest
  }

  /** The replace works character by character: a digit is kept, anything
      else dropped ... */
  lemma DigitsOnlyChar(c: char)
    ensures DigitsOnly([c]) == if IsAsciiDigit(c) then [c] else ""
  {
    assert [c][1..] == "";
  }

  /** ... and the digits of two pieces are those of the first, then those of
      the second. */
  lemma {:induction false} DigitsOnlyAppend(a: string, b: string)
    ensures DigitsOnly(a + b) == DigitsOnly(a) + DigitsOnly(b)
  {
    if a == [] {
      assert a + b == b;
    } else {
      assert (a + b)[0] == a[0];
      assert (a + b)[1..] == a[1..] + b;
      DigitsOnlyAppend(a[1..], b);
    }
  }

  /** A string of digits only loses nothing to the replace. */
  lemma {:induction false} DigitsOnlyOfDigits(s: string)
    requires forall k :: 0 <= k < |s| ==> IsAsciiDigit(s[k])
    ensures DigitsOnly(s) == s
  {
    if s != [] {
      DigitsOnlyOfDigits(s[1..]);
      assert s == [s[0]] + s[1..];
    }
  }

  /** `isValidPhone(phone)`: the pattern `/^[\d\s\-()]+$/` and at least ten
      digits. A valid number has at least ten characters, and separators
      never count as digits. */
  function IsValidPhone(phone: string): (ok: bool)
    ensures ok <==> (forall k :: 0 <= k < |phone| ==> PhoneChar(phone[k])) && |DigitsOnly(phone)| >= 10
    ensures ok ==> |phone| >= 10
  {
    phone != [] && (forall k :: 0 <= k < |phone| ==> PhoneChar(phone[k])) && |DigitsOnly(phone)| >= 10
  }

  /** Ten digits or more with nothing else make a valid phone number. */
  lemma TenDigitsValid(s: string)
    requires |s| >= 10 && forall k :: 0 <= k < |s| ==> IsAsciiDigit(s[k])
    ensures IsValidPhone(s)
  {
    DigitsOnlyOfDigits(s);
  }

  // ---------------------------------------------------------------- validatePassword

  /** `validatePassword`'s result object. */
  datatype PasswordResult = PasswordResult(isValid: bool, strength: string, errors: seq<string>)

  const RequiredMessage := "Password is required"

  /** The five rules in the order they are checked, with their messages. */
  const RuleMessages: seq<string> := [
    "Password must be at least 8 characters",
    "Password must contain lowercase letter",
    "Password must contain uppercase letter",
    "Password must contain number",
    "Password must contain special character"]

  /** `[!@#$%^&*(),.?":{}|<>]` */
  predicate IsSpecial(c: char) { c in "!@#$%^&*(),.?\":{}|<>" }

  /** Whether rule k (0 to 4) holds of the password. */
  predicate RulePasses(password: string, k: nat)
    requires k < 5
  {
    match k
    case 0 => |password| >= 8
    case 1 => exists i :: 0 <= i < |password| && IsAsciiLower(password[i])
    case 2 => exists i :: 0 <= i < |password| && IsAsciiUpper(password[i])
    case 3 => exists i :: 0 <= i < |password| && IsAsciiDigit(password[i])
    case _ => exists i :: 0 <= i < |password| && IsSpecial(password[i])
  }

  /** The messages of the rules among the first n that fail, in rule order. */
  function FailedRules(password: string, n: nat): (errors: seq<string>)
    requires n <= 5
    ensures |errors| <= n
    ensures forall m :: m in errors ==> m in RuleMessages[..n]
    ensures IsSubsequence(errors, RuleMessages[..n])
  {
    if n == 0 then []
    else
      var before := FailedRules(password, n - 1);
      assert RuleMessages[..n] == RuleMessages[..n - 1] + [RuleMessages[n - 1]];
      if RulePasses(password, n - 1) then
        SubsequenceSnoc(before, RuleMessages[..n - 1], RuleMessages[n - 1]);
        before
      else
        SubsequenceSnocBoth(before, RuleMessages[..n - 1], RuleMessages[n - 1]);
        before + [RuleMessages[n - 1]]
  }

  /** The five messages are distinct, so a subsequence of them lists each
      failed rule once. */
  lemma RuleMessagesDistinct()
    ensures forall i, j :: 0 <= i < j < |RuleMessages| ==> RuleMessages[i] != RuleMessages[j]
  {
    assert RuleMessages[0][22] == 'a' && RuleMessages[1][22] == 'l' && RuleMessages[2][22] == 'u';
    assert RuleMessages[3][22] == 'n' && RuleMessages[4][22] == 's';
  }

  /** A rule's message is listed exactly when the rule fails. */
  lemma {:induction false} FailedRulesListed(password: string, n: nat, k: nat)
    requires k < n <= 5
    ensures RuleMessages[k] in FailedRules(password, n) <==> !RulePasses(password, k)
  {
    if k < n - 1 {
      FailedRulesListed(password, n - 1, k);
      assert RuleMessages[k] != RuleMessages[n - 1];
    } else {
      assert RuleMessages[k] !in RuleMessages[..k];
    }
  }

  /** The three strength levels are distinct. */
  lemma StrengthNames()
    ensures "strong" != "medium" && "strong" != "weak" && "medium" != "weak"
  {
    assert "strong"[0] != "medium"[0] && "strong"[0] != "weak"[0] && "medium"[0] != "weak"[0];
  }

  /** `validatePassword(password)`: the required check, then one push per
      failed rule (rule 0 is `password.length < 8`, rules 1 to 4 the four
      character-class tests), then validity and strength. */
  method ValidatePassword(password: string) returns (result: PasswordResult)
    ensures password == "" ==> result == PasswordResult(false, "weak", [RequiredMessage])
    ensures password != "" ==> result.errors == FailedRules(password, 5)
    ensures |result.errors| <= 5
    ensures result.isValid <==> result.errors == []
    ensures result.strength == "strong" <==> result.isValid && |password| >= 12
    ensures result.strength == "medium" <==> result.isValid && 10 <= |password| < 12
    ensures result.strength == "weak" <==> !(result.isValid && |password| >= 10)
  {
    result := PasswordResult(false, "weak", []);
    if password == "" {
      result := result.(errors := result.errors + [RequiredMessage]);
      return;
    }
    if !RulePasses(password, 0) {
      result := result.(errors := result.errors + [RuleMessages[0]]);
    }
    assert result.errors == FailedRules(password, 1);
    if !RulePasses(password, 1) {
      result := result.(errors := result.errors + [RuleMessages[1]]);
    }
    assert result.errors == FailedRules(password, 2);
    if !RulePasses(password, 2) {
      result := result.(errors := result.errors + [RuleMessages[2]]);
    }
    assert result.errors == FailedRules(password, 3);
    if !RulePasses(password, 3) {
      result := result.(errors := result.errors + [RuleMessages[3]]);
    }
    assert result.errors == FailedRules(password, 4);
    if !RulePasses(password, 4) {
      result := result.(errors := result.errors + [RuleMessages[4]]);
    }
    assert result.errors == FailedRules(password, 5);
    StrengthNames();
    result := result.(isValid := |result.errors| == 0);
    if result.isValid {
      if |password| >= 12 {
        result := result.(strength := "strong");
      } else if |password| >= 10 {
        result := result.(strength := "medium");
      }
    }
  }

  /** A password is valid exactly when it is non-empty and passes all five
      rules; each failed rule is reported. */
  lemma PasswordValidity(password: string)
    requires password != ""
    ensures FailedRules(password, 5) == [] <==> forall k :: 0 <= k < 5 ==> RulePasses(password, k)
    ensures forall k :: 0 <= k < 5 ==> (RuleMessages[k] in FailedRules(password, 5) <==> !RulePasses(password, k))
  {
    forall k | 0 <= k < 5
      ensures RuleMessages[k] in FailedRules(password, 5) <==> !RulePasses(password, k)
    {
      FailedRulesListed(password, 5, k);
    }
    if FailedRules(password, 5) != [] {
      var m := FailedRules(password, 5)[0];
      assert m in RuleMessages[..5];
      var k :| 0 <= k < 5 && RuleMessages[k] == m;
      assert !RulePasses(password, k);
    }
  }

  /** "Abcdefg1!" fails no rule and is nine characters long: valid and weak. */
  method NineCharacterPassword() returns (result: PasswordResult)
    ensures result == PasswordResult(true, "weak", [])
  {
    var password := "Abcdefg1!";
    assert IsAsciiUpper(password[0]) && IsAsciiLower(password[1]);
    assert IsAsciiDigit(password[7]) && IsSpecial(password[8]);
    result := ValidatePassword(password);
    PasswordValidity(password);
  }

  // ---------------------------------------------------------------- field validators

  /** `validateRequired(value, fieldName = 'This field')`: a message for
      null, undefined and the empty string; any other value passes, 0 and
      false included. */
  function ValidateRequired(value: Value, fieldName: string := "This field"): (r: Option<string>)
    ensures r.Some? <==> value in {Null, Undefined, Str("")}
    ensures r.Some? ==> r.value == fieldName + " is required"
    ensures Truthy(value) ==> r.None?
  {
    if value.Null? || value.Undefined? || value == Str("") then Some(fieldName + " is required") else None
  }

  /** `validateMinLength(value, minLength, fieldName)`: a message only for a
      non-empty value shorter than the minimum. */
  function ValidateMinLength(value: string, minLength: int, fieldName: string := "This field"): (r: Option<string>)
    ensures r.Some? <==> value != "" && |value| < minLength
    ensures r.Some? ==> r.value == fieldName + " must be at least " + IntToString(minLength) + " characters"
  {
    if value != "" && |value| < minLength then Some(fieldName + " must be at least " + IntToString(minLength) + " characters")
    else None
  }

  /** `validateMaxLength(value, maxLength, fieldName)`: a message only for a
      non-empty value longer than the maximum. */
  function ValidateMaxLength(value: string, maxLength: int, fieldName: string := "This field"): (r: Option<string>)
    ensures r.Some? <==> value != "" && |value| > maxLength
    ensures r.Some? ==> r.value == fieldName + " must not exceed " + IntToString(maxLength) + " characters"
  {
    if value != "" && |value| > maxLength then Some(fieldName + " must not exceed " + IntToString(maxLength) + " characters")
    else None
  }

  /** Together the two length checks accept exactly the empty value and the
      values whose length lies within the bounds. */
  lemma LengthBounds(value: string, minLength: int, maxLength: int, fieldName: string)
    ensures ValidateMinLength(value, minLength, fieldName).None? && ValidateMaxLength(value, maxLength, fieldName).None?
            <==> value == "" || minLength <= |value| <= maxLength
  {
  }
}
