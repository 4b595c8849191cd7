/** The two regular-expression validators, restated as string predicates:
    e-mail `^[^\s@]+@[^\s@]+\.[^\s@]+$` and phone `^\+?[0-9]{7,15}$`. */
module Validations {
  import opened Js

  /** `[^\s@]`: neither white space nor '@'. */
  predicate EmailChar(c: char)
  {
    !IsWhitespace(c) && c != '@'
  }

  predicate AllEmailChars(s: string)
  {
    forall i | 0 <= i < |s| :: EmailChar(s[i])
  }

  /** `[^\s@]+\.[^\s@]+` for the whole part after '@': the greedy first group can take
      any dot as the separator, so some dot must have a character on each side. */
  predicate IsValidDomain(d: string)
  {
    AllEmailChars(d) && exists j | 0 < j < |d| - 1 :: d[j] == '.'
  }

  /** `isValidEmail`: a non-empty local part free of '@' and white space, one '@', and a
      valid domain. */
  predicate IsValidEmail(email: string)
  {
    exists i | 0 < i < |email| :: email[i] == '@' && AllEmailChars(email[..i]) && IsValidDomain(email[i + 1..])
  }

  /** The three groups of the regular expression and the literal separators between them. */
  predicate IsEmailSplit(email: string, local: string, host: string, tld: string)
  {
    |local| > 0 && |host| > 0 && |tld| > 0 &&
    AllEmailChars(local) && AllEmailChars(host) && AllEmailChars(tld) &&
    email == local + "@" + host + "." + tld
  }

  lemma AllEmailCharsSlice(s: string, a: nat, b: nat)
    requires AllEmailChars(s) && a <= b <= |s|
    ensures AllEmailChars(s[a..b])
  {
    forall k | 0 <= k < b - a ensures EmailChar(s[a..b][k]) { assert s[a..b][k] == s[a + k]; }
  }

  lemma ValidEmailHasSplit(email: string)
    requires IsValidEmail(email)
    ensures exists l, h, t :: IsEmailSplit(email, l, h, t)
  {
    var i :| 0 < i < |email| && email[i] == '@' && AllEmailChars(email[..i]) && IsValidDomain(email[i + 1..]);
    var d := email[i + 1..];
    var j :| 0 < j < |d| - 1 && d[j] == '.';
    var l, h, t := email[..i], d[..j], d[j + 1..];
    AllEmailCharsSlice(d, 0, j);
    AllEmailCharsSlice(d, j + 1, |d|);
    SplitAround(email, i, '@');
    SplitAround(d, j, '.');
    Glue(email, l, d, h, t);
    assert IsEmailSplit(email, l, h, t);
  }

  /** Cutting a string around one position and gluing it back gives the string. */
  lemma SplitAround(s: string, i: nat, c: char)
    requires i < |s| && s[i] == c
    ensures s == s[..i] + [c] + s[i + 1..]
  {
  }

  lemma Glue(email: string, l: string, d: string, h: string, t: string)
    requires email == l + "@" + d && d == h + "." + t
    ensures email == l + "@" + h + "." + t
  {
  }

  lemma SplitIsValidEmail(email: string, l: string, h: string, t: string)
    requires IsEmailSplit(email, l, h, t)
    ensures IsValidEmail(email)
  {
    var i := |l|;
    var d := h + "." + t;
    assert email == l + "@" + d;
    assert email[i] == '@';
    assert email[..i] == l;
    assert email[i + 1..] == d;
    assert d[|h|] == '.';
    assert AllEmailChars(d) by {
      forall k | 0 <= k < |d| ensures EmailChar(d[k]) {
        if k < |h| { assert d[k] == h[k]; }
        else if k > |h| { assert d[k] == t[k - |h| - 1]; }
      }
    }
  }

  /** IsValidEmail is exactly the language of the regular expression. */
  lemma ValidEmailIffSplit(email: string)
    ensures IsValidEmail(email) <==> exists l, h, t :: IsEmailSplit(email, l, h, t)
  {
    if IsValidEmail(email) {
      ValidEmailHasSplit(email);
    }
    if exists l, h, t :: IsEmailSplit(email, l, h, t) {
      var l, h, t :| IsEmailSplit(email, l, h, t);
      SplitIsValidEmail(email, l, h, t);
    }
  }

  /** A valid e-mail has no white space, exactly one '@', a non-empty part before it,
      and a dot with text on both sides after it. */
  lemma ValidEmailShape(email: string)
    requires IsValidEmail(email)
    ensures forall k | 0 <= k < |email| :: !IsWhitespace(email[k])
    ensures exists i | 0 < i < |email| :: email[i] == '@' &&
              (forall k | 0 <= k < |email| && email[k] == '@' :: k == i) &&
              exists j | i + 1 < j < |email| - 1 :: email[j] == '.'
  {
    var i :| 0 < i < |email| && email[i] == '@' && AllEmailChars(email[..i]) && IsValidDomain(email[i + 1..]);
    var d := email[i + 1..];
    forall k | 0 <= k < |email|
      ensures !IsWhitespace(email[k]) && (email[k] == '@' ==> k == i)
    {
      if k < i {
        assert email[k] == email[..i][k];
      } else if k > i {
        assert email[k] == d[k - i - 1];
      }
    }
    var j :| 0 < j < |d| - 1 && d[j] == '.';
    assert email[i + 1 + j] == '.';
  }

  lemma EmailExamples()
    ensures IsValidEmail("a@x.com")
    ensures IsValidEmail("a@b.c.d")
    ensures !IsValidEmail("a@x")
    ensures !IsValidEmail("a@.com")
    ensures !IsValidEmail("a@x.")
    ensures !IsValidEmail("a b@x.com")
  {
    assert "a@x.com"[1] == '@' && "a@x.com"[..1] == "a" && "a@x.com"[2..] == "x.com" && "x.com"[1] == '.';
    assert "a@b.c.d"[1] == '@' && "a@b.c.d"[..1] == "a" && "a@b.c.d"[2..] == "b.c.d" && "b.c.d"[1] == '.';
    assert "a@.com"[2..] == ".com";
    assert "a@x."[2..] == "x.";
    assert !EmailChar("a b@x.com"[1]);
    forall i | 0 < i < |"a b@x.com"| && "a b@x.com"[i] == '@'
      ensures !AllEmailChars("a b@x.com"[..i])
    {
      assert "a b@x.com"[..i][1] == ' ';
    }
  }

  predicate IsAsciiDigit(c: char)
  {
    '0' <= c <= '9'
  }

  /** The digits after the optional leading '+'. */
  function PhoneDigits(phone: string): string
  {
    if |phone| > 0 && phone[0] == '+' then phone[1..] else phone
  }

  /** `isValidPhone`. */
  predicate IsValidPhone(phone: string)
  {
    var digits := PhoneDigits(phone);
    7 <= |digits| <= 15 && forall i | 0 <= i < |digits| :: IsAsciiDigit(digits[i])
  }

  /** The optional '+' and the digit group of `^\+?[0-9]{7,15}$`. */
  predicate IsPhoneSplit(phone: string, plus: bool, d: string)
  {
    phone == (if plus then "+" else "") + d && 7 <= |d| <= 15 &&
    forall i | 0 <= i < |d| :: IsAsciiDigit(d[i])
  }

  /** IsValidPhone is exactly the language of the regular expression. */
  lemma ValidPhoneIff(phone: string)
    ensures IsValidPhone(phone) <==> exists plus: bool, d: string :: IsPhoneSplit(phone, plus, d)
  {
    var d := PhoneDigits(phone);
    if IsValidPhone(phone) {
      var plus := |phone| > 0 && phone[0] == '+';
      assert IsPhoneSplit(phone, plus, d);
    }
    if exists plus: bool, e: string :: IsPhoneSplit(phone, plus, e) {
      var plus: bool, e: string :| IsPhoneSplit(phone, plus, e);
      if plus {
        assert d == e;
      } else {
        assert |e| > 0 && IsAsciiDigit(e[0]);
        assert d == e;
      }
    }
  }

  lemma ValidPhoneLength(phone: string)
    requires IsValidPhone(phone)
    ensures 7 <= |phone| <= 16
  {
  }

  lemma PhoneExamples()
    ensures IsValidPhone("+2348012345")
    ensures IsValidPhone("08012345678")
    ensures !IsValidPhone("+")
    ensures !IsValidPhone("123456")
    ensures !IsValidPhone("1234567890123456")
    ensures !IsValidPhone("++1234567")
  {
    assert PhoneDigits("+2348012345") == "2348012345";
    assert PhoneDigits("++1234567") == "+1234567";
    assert !IsAsciiDigit("+1234567"[0]);
  }
}
