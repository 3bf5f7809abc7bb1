/** The string checks of the page's `utils` object (script.js): the email,
    mobile-phone and RUC (Peruvian taxpayer number) tests, each a fixed regular
    expression, and the digit filter used to build WhatsApp links. */
module Validators {
  import opened Text

  /** `s.replace(/\s/g, '')`. */
  function RemoveWhitespace(s: string): (r: string)
    ensures forall i :: 0 <= i < |r| ==> !IsWhitespace(r[i])
    ensures forall c :: !IsWhitespace(c) ==> multiset(r)[c] == multiset(s)[c]
  {
    Retain(s, NonWhitespace)
  }

  /** `utils.formatWhatsAppNumber`: `number.replace(/[^\d]/g, '')`. */
  function FormatWhatsAppNumber(number: string): (r: string)
    ensures AllDigits(r)
    ensures forall c :: IsAsciiDigit(c) ==> multiset(r)[c] == multiset(number)[c]
  {
    Retain(number, IsAsciiDigit)
  }

  /** The class `[^\s@]+`: one or more characters, none of them white space
      or `@`. */
  predicate EmailAtom(t: string) {
    t != [] && forall i :: 0 <= i < |t| ==> !IsWhitespace(t[i]) && t[i] != '@'
  }

  /** `utils.isValidEmail`: the whole string matches `^[^\s@]+@[^\s@]+\.[^\s@]+$`,
      read as the concatenation atom, `@`, atom, `.`, atom. */
  predicate IsValidEmail(email: string)
    ensures IsValidEmail(email) ==> email != [] && email[0] != '@' && email[|email| - 1] != '@'
  {
    exists p, q | 0 < p < q < |email| ::
      && email[p] == '@' && email[q] == '.'
      && EmailAtom(email[..p]) && EmailAtom(email[p + 1..q]) && EmailAtom(email[q + 1..])
  }

  /** `utils.isValidPhone`: with all white space removed, the string matches
      `^[9]\d{8}$`. */
  predicate IsValidPhone(phone: string)
    ensures IsValidPhone(phone) ==> |phone| >= 9
  {
    var t := RemoveWhitespace(phone);
    |t| == 9 && t[0] == '9' && AllDigits(t[1..])
  }

  /** `utils.isValidRUC`: with all white space removed, the string matches
      `^\d{11}$`. */
  predicate IsValidRUC(ruc: string)
    ensures IsValidRUC(ruc) ==> |ruc| >= 11
  {
    var t := RemoveWhitespace(ruc);
    |t| == 11 && AllDigits(t)
  }

  /** Two distinct positions holding `c` make `c` occur at least twice. */
  lemma TwoOccurrences(s: string, j: int, k: int)
    requires 0 <= j < k < |s| && s[j] == s[k]
    ensures multiset(s)[s[j]] >= 2
  {
    assert s == s[..j] + [s[j]] + s[j + 1..k] + [s[k]] + s[k + 1..];
  }

  /** The email rule in plain words: no white space anywhere, exactly one `@`
      with at least one character before it, and after it a `.` that has at
      least one character on each side. */
  predicate EmailShape(email: string) {
    && (forall i :: 0 <= i < |email| ==> !IsWhitespace(email[i]))
    && multiset(email)['@'] == 1
    && exists p, q :: 0 < p && p + 1 < q < |email| - 1 && email[p] == '@' && email[q] == '.'
  }

  lemma EmailMatchHasShape(email: string, p: int, q: int)
    requires 0 < p < q < |email| && email[p] == '@' && email[q] == '.'
    requires EmailAtom(email[..p]) && EmailAtom(email[p + 1..q]) && EmailAtom(email[q + 1..])
    ensures EmailShape(email)
  {
    var a, b, c := email[..p], email[p + 1..q], email[q + 1..];
    assert email == a + [email[p]] + b + [email[q]] + c;
    assert '@' !in a && '@' !in b && '@' !in c;
    forall i | 0 <= i < |email| ensures !IsWhitespace(email[i]) {
      if i < p {
        assert email[i] == a[i];
      } else if p < i < q {
        assert email[i] == b[i - p - 1];
      } else if q < i {
        assert email[i] == c[i - q - 1];
      }
    }
  }

  lemma EmailShapeMatches(email: string)
    requires EmailShape(email)
    ensures IsValidEmail(email)
  {
    var p, q :| 0 < p && p + 1 < q < |email| - 1 && email[p] == '@' && email[q] == '.';
    forall k | 0 <= k < |email| && k != p ensures email[k] != '@' {
      if email[k] == '@' {
        if k < p { TwoOccurrences(email, k, p); } else { TwoOccurrences(email, p, k); }
      }
    }
    assert EmailAtom(email[..p]);
    assert EmailAtom(email[p + 1..q]);
    assert EmailAtom(email[q + 1..]);
  }

  lemma EmailAcceptsExactly(email: string)
    ensures IsValidEmail(email) <==> EmailShape(email)
  {
    if IsValidEmail(email) {
      var p, q :| 0 < p < q < |email| && email[p] == '@' && email[q] == '.'
        && EmailAtom(email[..p]) && EmailAtom(email[p + 1..q]) && EmailAtom(email[q + 1..]);
      EmailMatchHasShape(email, p, q);
    }
    if EmailShape(email) {
      EmailShapeMatches(email);
    }
  }

  /** The shortest address the pattern accepts has five characters, as in
      `a@b.c`. */
  lemma EmailMinimumLength(email: string)
    ensures IsValidEmail(email) ==> |email| >= 5
  {
    if IsValidEmail(email) {
      var p, q :| 0 < p < q < |email| && email[p] == '@' && email[q] == '.'
        && EmailAtom(email[..p]) && EmailAtom(email[p + 1..q]) && EmailAtom(email[q + 1..]);
      assert |email[p + 1..q]| >= 1 && |email[q + 1..]| >= 1;
    }
  }

  /** Without an `@` there is no match. */
  lemma EmailNeedsAt(email: string)
    requires '@' !in email
    ensures !IsValidEmail(email)
  {
    forall p | 0 <= p < |email| ensures email[p] != '@' {
      assert email[p] in email;
    }
  }

  lemma EmailExamples()
    ensures IsValidEmail("a@b.co")
    ensures !IsValidEmail("a@b")
    ensures !IsValidEmail("a.b.com")
  {
    var s := "a@b.co";
    assert s[..1] == "a" && s[2..3] == "b" && s[4..] == "co";
    assert EmailAtom("a") && EmailAtom("b") && EmailAtom("co");
    assert s[1] == '@' && s[3] == '.';
    EmailMinimumLength("a@b");
    EmailNeedsAt("a.b.com");
  }

  /** Once white space is removed, the rest is all digits exactly when every
      character of `s` is white space or a digit; the rest is then the digit
      filter's result. */
  lemma {:induction false} WhitespaceAndDigits(s: string)
    ensures AllDigits(RemoveWhitespace(s)) <==>
            forall i :: 0 <= i < |s| ==> IsWhitespace(s[i]) || IsAsciiDigit(s[i])
    ensures AllDigits(RemoveWhitespace(s)) ==> RemoveWhitespace(s) == FormatWhatsAppNumber(s)
  {
    if forall i :: 0 <= i < |s| ==> IsWhitespace(s[i]) || IsAsciiDigit(s[i]) {
      RetainAgree(s, NonWhitespace, IsAsciiDigit);
    } else {
      var k :| 0 <= k < |s| && !IsWhitespace(s[k]) && !IsAsciiDigit(s[k]);
      RetainKeeps(s, NonWhitespace, k);
    }
  }

  /** The phone rule restated through the digit filter: nothing but white
      space and digits, nine digits in all, the first of them a 9. */
  lemma PhoneAcceptsExactly(phone: string)
    ensures IsValidPhone(phone) <==>
      && (forall i :: 0 <= i < |phone| ==> IsWhitespace(phone[i]) || IsAsciiDigit(phone[i]))
      && |FormatWhatsAppNumber(phone)| == 9
      && FormatWhatsAppNumber(phone)[0] == '9'
  {
    var t := RemoveWhitespace(phone);
    WhitespaceAndDigits(phone);
    LeadingNine(t);
    assert IsValidPhone(phone) <==> AllDigits(t) && |t| == 9 && t[0] == '9';
  }

  /** `^[9]\d{8}$` on a string: nine digits, the first a 9. */
  lemma LeadingNine(t: string)
    ensures (|t| == 9 && t[0] == '9' && AllDigits(t[1..])) <==> (AllDigits(t) && |t| == 9 && t[0] == '9')
  {
    if |t| == 9 && t[0] == '9' && AllDigits(t[1..]) {
      assert forall i :: 1 <= i < |t| ==> t[i] == t[1..][i - 1];
    }
  }

  /** The RUC rule restated through the digit filter: nothing but white space
      and digits, eleven digits in all. Dashes are not removed. */
  lemma RucAcceptsExactly(ruc: string)
    ensures IsValidRUC(ruc) <==>
      && (forall i :: 0 <= i < |ruc| ==> IsWhitespace(ruc[i]) || IsAsciiDigit(ruc[i]))
      && |FormatWhatsAppNumber(ruc)| == 11
  {
    WhitespaceAndDigits(ruc);
  }

  /** A RUC written with a dash is rejected, however many digits it has. */
  lemma RucRejectsDash(ruc: string)
    requires '-' in ruc
    ensures !IsValidRUC(ruc)
  {
    RucAcceptsExactly(ruc);
    var k :| 0 <= k < |ruc| && ruc[k] == '-';
  }

  /** The digit filter keeps the digits in order: filtering a concatenation
      concatenates the filtered parts. */
  lemma FormatWhatsAppNumberConcat(a: string, b: string)
    ensures FormatWhatsAppNumber(a + b) == FormatWhatsAppNumber(a) + FormatWhatsAppNumber(b)
  {
    RetainConcat(a, b, IsAsciiDigit);
  }

  lemma FormatWhatsAppNumberIdempotent(number: string)
    ensures FormatWhatsAppNumber(FormatWhatsAppNumber(number)) == FormatWhatsAppNumber(number)
  {
    RetainIdempotent(number, IsAsciiDigit);
  }

  /** Nine bare digits beginning with 9 are a valid phone number. */
  lemma BarePhoneAccepted(phone: string)
    requires |phone| == 9 && phone[0] == '9' && AllDigits(phone)
    ensures IsValidPhone(phone)
  {
    DigitsAreNotWhitespace(phone);
    RetainEverything(phone, NonWhitespace);
    assert AllDigits(phone[1..]);
  }

  /** Eleven bare digits are a valid RUC. */
  lemma BareRucAccepted(ruc: string)
    requires |ruc| == 11 && AllDigits(ruc)
    ensures IsValidRUC(ruc)
  {
    DigitsAreNotWhitespace(ruc);
    RetainEverything(ruc, NonWhitespace);
  }

  lemma PhoneExamples()
    ensures IsValidPhone("987654321")
    ensures !IsValidPhone("887654321")
  {
    BarePhoneAccepted("987654321");
  }

  lemma RucExamples()
    ensures IsValidRUC("20123456789")
    ensures !IsValidRUC("20-12345678-9")
  {
    BareRucAccepted("20123456789");
    RucRejectsDash("20-12345678-9");
  }
}
