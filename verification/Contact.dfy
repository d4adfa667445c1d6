/** Normalised contact forms for duplicate detection, over ASCII text. */
module Contact {

  predicate IsSpace(c: char) {
    c == ' ' || '\t' <= c <= '\r'
  }

  predicate IsDigit(c: char) {
    '0' <= c <= '9'
  }

  function TrimStart(s: string): string {
    if s != [] && IsSpace(s[0]) then TrimStart(s[1..]) else s
  }

  function TrimEnd(s: string): string {
    if s != [] && IsSpace(s[|s| - 1]) then TrimEnd(s[..|s| - 1]) else s
  }

  function Lower(c: char): char {
    if 'A' <= c <= 'Z' then (c as int + 32) as char else c
  }

  function LowerCase(s: string): (t: string)
    ensures |t| == |s|
    ensures forall i | 0 <= i < |s| :: t[i] == Lower(s[i])
  {
    seq(|s|, i requires 0 <= i < |s| => Lower(s[i]))
  }

  /** Trim, then lower-case the whole value. */
  function NormalizeEmail(email: string): string {
    LowerCase(TrimEnd(TrimStart(email)))
  }

  function Digits(s: string): string {
    if s == [] then []
    else Digits(s[..|s| - 1]) + if IsDigit(s[|s| - 1]) then [s[|s| - 1]] else []
  }

  predicate Begins(s: string, first: char, second: char) {
    |s| >= 2 && s[0] == first && s[1] == second
  }

  /** Digits without an international 00 prefix to the stored form, branch by branch. */
  function FromNational(n: string): string {
    if Begins(n, '6', '3') then n
    else if (|n| == 10 || |n| == 11) && n[0] == '0' then ['6', '3'] + n[1..]
    else if |n| == 10 && n[0] == '9' then ['6', '3'] + n
    else n
  }

  /** The Philippine-aware phone form. */
  function NormalizePhone(phone: string): string {
    var digitsOnly := Digits(phone);
    FromNational(if Begins(digitsOnly, '0', '0') then digitsOnly[2..] else digitsOnly)
  }

  ghost predicate AllDigits(s: string) {
    forall c | c in s :: IsDigit(c)
  }

  lemma {:induction false} DigitsOfDigits(s: string)
    requires AllDigits(s)
    ensures Digits(s) == s
  {
    if s != [] {
      var n := |s| - 1;
      DigitsOfDigits(s[..n]);
      assert s[n] in s;
      assert s == s[..n] + [s[n]];
    }
  }

  lemma DigitsAreDigits(s: string)
    ensures AllDigits(Digits(s))
  {
  }

  /** Separators never matter: two spellings with the same digits share one normal form. */
  lemma SeparatorsAreIgnored(phone: string)
    ensures NormalizePhone(Digits(phone)) == NormalizePhone(phone)
  {
    DigitsAreDigits(phone);
    DigitsOfDigits(Digits(phone));
  }

  /** Any spelling of the five documented shapes of a 10-digit mobile number beginning with 9. */
  ghost predicate SpellsMobile(phone: string, mobile: string) {
    var d := Digits(phone);
    d == mobile || d == ['0'] + mobile || d == ['6', '3'] + mobile
    || d == ['0', '0', '6', '3'] + mobile || d == ['0', '0', '0'] + mobile
  }

  /** The three national shapes that reach the full form of a mobile number, and no others. */
  lemma NationalMobile(n: string, mobile: string)
    requires |mobile| == 10 && mobile[0] == '9'
    ensures FromNational(n) == ['6', '3'] + mobile <==> n == ['6', '3'] + mobile || n == ['0'] + mobile || n == mobile
  {
    var full := ['6', '3'] + mobile;
    assert full[2..] == mobile;
    assert (['0'] + mobile)[1..] == mobile;
    if FromNational(n) == full && !Begins(n, '6', '3') {
      assert full[0] == '6' && full[1] == '3';
      if n[0] == '0' {
        assert (['6', '3'] + n[1..])[2..] == n[1..];
        assert n == ['0'] + n[1..];
      } else {
        assert (['6', '3'] + n)[2..] == n;
      }
    }
  }

  /**
   * Every spelling agrees on 63 followed by the ten digits, whatever separators it carries; and
   * no other digit string normalises to that form, so a match on it is a match on the number.
   */
  lemma MobileSpellingsAgree(phone: string, mobile: string)
    requires AllDigits(mobile) && |mobile| == 10 && mobile[0] == '9'
    ensures NormalizePhone(phone) == ['6', '3'] + mobile <==>
            SpellsMobile(phone, mobile) || Digits(phone) == ['0', '0'] + mobile
  {
    var d := Digits(phone);
    if Begins(d, '0', '0') {
      NationalMobile(d[2..], mobile);
      assert d == ['0', '0'] + d[2..];
      assert ['0', '0'] + (['6', '3'] + mobile) == ['0', '0', '6', '3'] + mobile;
      assert ['0', '0'] + (['0'] + mobile) == ['0', '0', '0'] + mobile;
      assert (['0', '0', '6', '3'] + mobile)[2..] == ['6', '3'] + mobile;
      assert (['0', '0', '0'] + mobile)[2..] == ['0'] + mobile;
      assert (['0', '0'] + mobile)[2..] == mobile;
    } else {
      NationalMobile(d, mobile);
    }
  }

  lemma NationalDigits(n: string)
    requires AllDigits(n)
    ensures AllDigits(FromNational(n))
  {
  }

  /** A stored form is a fixed point of the national step; dropping a leading 00 from it is never neutral. */
  lemma NationalTwice(n: string)
    ensures FromNational(FromNational(n)) == FromNational(n)
    ensures Begins(FromNational(n), '0', '0') ==> FromNational(FromNational(n)[2..]) != FromNational(n)
  {
    var r := FromNational(n);
    if Begins(r, '0', '0') {
      var again := FromNational(r[2..]);
      assert again[..] != r by {
        if |again| == |r| {
          assert again[0] == '6';
        }
      }
    }
  }

  /** An international 00 followed by another 00, at a length the trunk rule does not read as a local number. */
  predicate DoublyInternational(digits: string) {
    Begins(digits, '0', '0') && Begins(digits[2..], '0', '0') && |digits| != 12 && |digits| != 13
  }

  /** Exactly these digits leave a form that still begins with 00. */
  lemma NormalBeginsZeros(phone: string)
    ensures Begins(NormalizePhone(phone), '0', '0') <==> DoublyInternational(Digits(phone))
  {
    var d := Digits(phone);
    var n := if Begins(d, '0', '0') then d[2..] else d;
    assert Begins(FromNational(n), '0', '0') <==> Begins(n, '0', '0') && |n| != 10 && |n| != 11;
  }

  /** Normalising twice changes nothing exactly when the digits are not doubly international. */
  lemma PhoneIdempotentIff(phone: string)
    ensures NormalizePhone(NormalizePhone(phone)) == NormalizePhone(phone) <==> !DoublyInternational(Digits(phone))
  {
    var d := Digits(phone);
    var n := if Begins(d, '0', '0') then d[2..] else d;
    DigitsAreDigits(phone);
    NationalDigits(n);
    DigitsOfDigits(FromNational(n));
    NationalTwice(n);
    NormalBeginsZeros(phone);
  }

  /** Four zeros become two, and two become none. */
  lemma FourZerosShrinkTwice()
    ensures NormalizePhone("0000") == "00" && NormalizePhone("00") == ""
  {
    hide Digits;
    DigitsOfDigits("0000");
    DigitsOfDigits("00");
  }

  lemma {:induction false} TrimEndKeeps(s: string)
    ensures TrimEnd(s) <= s
    ensures TrimEnd(s) == [] || !IsSpace(TrimEnd(s)[|TrimEnd(s)| - 1])
  {
    if s != [] && IsSpace(s[|s| - 1]) {
      TrimEndKeeps(s[..|s| - 1]);
    }
  }

  lemma TrimStartKeeps(s: string)
    ensures TrimStart(s) == [] || !IsSpace(TrimStart(s)[0])
  {
  }

  const WHITE_SPACE: set<char> := {' ', '\t', '\n', '\U{000B}', '\U{000C}', '\r'}

  /** White space around an address is dropped and capital letters become small ones; nothing else changes. */
  lemma EmailNormalForm(before: string, address: string, after: string)
    requires (forall c | c in before :: c in WHITE_SPACE) && (forall c | c in after :: c in WHITE_SPACE)
    requires address != [] ==> address[0] !in WHITE_SPACE && address[|address| - 1] !in WHITE_SPACE
    ensures var normal := NormalizeEmail(before + address + after);
            && |normal| == |address|
            && forall i | 0 <= i < |address| ::
                 if 'A' <= address[i] <= 'Z' then 'a' <= normal[i] <= 'z' && normal[i] - 'a' == address[i] - 'A'
                 else normal[i] == address[i]
  {
    Trimmed(before, address, after);
    hide TrimStart, TrimEnd;
  }

  lemma Trimmed(before: string, address: string, after: string)
    requires (forall c | c in before :: c in WHITE_SPACE) && (forall c | c in after :: c in WHITE_SPACE)
    requires address != [] ==> address[0] !in WHITE_SPACE && address[|address| - 1] !in WHITE_SPACE
    ensures TrimEnd(TrimStart(before + address + after)) == address
  {
    assert before + address + after == before + (address + after);
    SpacesBefore(before, address + after);
    if address == [] {
      assert after + [] == after == address + after;
      SpacesBefore(after, []);
    } else {
      var text := address + after;
      assert text[0] == address[0] && TrimStart(text) == text;
      SpacesAfter(address, after);
      assert TrimEnd(address) == address;
    }
  }

  lemma {:induction false} SpacesBefore(spaces: string, s: string)
    requires forall c | c in spaces :: c in WHITE_SPACE
    ensures TrimStart(spaces + s) == TrimStart(s)
  {
    if spaces == [] {
      assert spaces + s == s;
    } else {
      assert spaces[0] in spaces && (spaces + s)[1..] == spaces[1..] + s;
      SpacesBefore(spaces[1..], s);
    }
  }

  lemma {:induction false} SpacesAfter(s: string, spaces: string)
    requires forall c | c in spaces :: c in WHITE_SPACE
    ensures TrimEnd(s + spaces) == TrimEnd(s)
  {
    if spaces == [] {
      assert s + spaces == s;
    } else {
      var n := |spaces| - 1;
      assert spaces[n] in spaces && (s + spaces)[..|s + spaces| - 1] == s + spaces[..n];
      SpacesAfter(s, spaces[..n]);
    }
  }

  /** E-mail normalisation is idempotent, so re-normalising a frozen destination changes nothing. */
  lemma EmailIdempotent(email: string)
    ensures NormalizeEmail(NormalizeEmail(email)) == NormalizeEmail(email)
  {
    var trimmed := TrimEnd(TrimStart(email));
    TrimStartKeeps(email);
    TrimEndKeeps(TrimStart(email));
    var lowered := LowerCase(trimmed);
    assert lowered != [] ==> lowered[0] == Lower(trimmed[0]) && lowered[|lowered| - 1] == Lower(trimmed[|trimmed| - 1]);
    assert LowerCase(lowered) == lowered;
  }
}
