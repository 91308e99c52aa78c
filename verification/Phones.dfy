/** Phone numbers as the tables and the lock keys compare them. */
module Phones {
  predicate IsDigit(c: char) {
    '0' <= c <= '9'
  }

  /** `re.sub(r"\D", "", phone)`. */
  function Digits(phone: string): (d: string)
    ensures forall i :: 0 <= i < |d| ==> IsDigit(d[i])
  {
    if phone == "" then ""
    else (if IsDigit(phone[0]) then [phone[0]] else "") + Digits(phone[1..])
  }

  /** `right(regexp_replace(phone, '\D', '', 'g'), 10)`. */
  function Last10(phone: string): string {
    var d := Digits(phone);
    if |d| <= 10 then d else d[|d| - 10..]
  }

  /** Digits are kept one by one, in order, and everything else is dropped. */
  lemma {:induction false} DigitsAppend(s: string, c: char)
    ensures Digits("") == "" && Digits(s + [c]) == Digits(s) + if '0' <= c <= '9' then [c] else ""
  {
    if s == "" {
      assert s + [c] == [c] && [c][1..] == "";
    } else {
      DigitsAppend(s[1..], c);
      assert (s + [c])[0] == s[0] && (s + [c])[1..] == s[1..] + [c];
    }
  }

  /** The last ten digits: all of them when there are no more. */
  lemma LastTenDigits(phone: string)
    ensures exists front :: Digits(phone) == front + Last10(phone)
    ensures |Last10(phone)| == if |Digits(phone)| <= 10 then |Digits(phone)| else 10
  {
    var d := Digits(phone);
    assert d == d[..|d| - |Last10(phone)|] + Last10(phone);
  }

  lemma {:induction false} DigitsOfDigits(s: string)
    requires forall i :: 0 <= i < |s| ==> IsDigit(s[i])
    ensures Digits(s) == s
  {
    if s != "" {
      DigitsOfDigits(s[1..]);
      assert s == [s[0]] + s[1..];
    }
  }

  /** A country code in front changes the digits of a local number, not its last ten. */
  lemma CountryCode(code: string, local: string)
    requires forall i :: 0 <= i < |code| ==> IsDigit(code[i])
    requires |local| == 10 && forall i :: 0 <= i < |local| ==> IsDigit(local[i])
    ensures Last10(code + local) == Last10(local)
    ensures code != "" ==> Digits(code + local) != Digits(local)
  {
    DigitsOfDigits(local);
    DigitsOfDigits(code + local);
    assert (code + local)[|code|..] == local;
  }
}
