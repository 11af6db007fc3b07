/** Decimal and hexadecimal numerals, most significant digit first. */
module Numerals {
  predicate IsDigit(c: char, base: nat) {
    || ('0' <= c <= '9' && c as int - '0' as int < base)
    || ('a' <= c <= 'f' && c as int - 'a' as int + 10 < base)
  }

  function DigitValue(c: char): (v: nat)
    requires IsDigit(c, 16)
    ensures v < 16 && forall base: nat :: base <= 16 ==> (IsDigit(c, base) <==> v < base)
  {
    if c <= '9' then c as int - '0' as int else c as int - 'a' as int + 10
  }

  function Digit(v: nat): (c: char)
    requires v < 16
    ensures IsDigit(c, 16) && DigitValue(c) == v
  {
    if v < 10 then '0' + v as char else 'a' + (v - 10) as char
  }

  /** The digits of n, without leading zeros. */
  function Numeral(n: nat, base: nat): (s: string)
    requires 2 <= base <= 16
    ensures s != ""
    decreases n
  {
    if n < base then [Digit(n)] else Numeral(n / base, base) + [Digit(n % base)]
  }

  predicate AllDigits(s: string, base: nat) {
    forall i :: 0 <= i < |s| ==> IsDigit(s[i], base)
  }

  /** What reading digits makes of a value already read. */
  function ValueFrom(acc: nat, s: string, base: nat): nat
    requires base <= 16 && AllDigits(s, base)
    decreases |s|
  {
    if s == "" then acc else ValueFrom(acc * base + DigitValue(s[0]), s[1..], base)
  }

  lemma ValueFromStep(acc: nat, s: string, base: nat)
    requires base <= 16 && AllDigits(s, base) && s != ""
    ensures AllDigits(s[1..], base) && IsDigit(s[0], base) && IsDigit(s[0], 16)
    ensures ValueFrom(acc, s, base) == ValueFrom(acc * base + DigitValue(s[0]), s[1..], base)
  {
  }

  lemma AppendDigit(s: string, c: char, base: nat)
    requires base <= 16 && AllDigits(s, base) && IsDigit(c, base)
    ensures AllDigits(s + [c], base) && IsDigit(c, 16)
  {
  }

  lemma ValueFromOne(acc: nat, c: char, base: nat)
    requires base <= 16 && IsDigit(c, base)
    ensures AllDigits([], base) && AllDigits([c], base) && IsDigit(c, 16)
    ensures ValueFrom(acc, [], base) == acc && ValueFrom(acc, [c], base) == acc * base + DigitValue(c)
  {
    assert [c][1..] == [];
  }

  lemma {:induction false} ValueFromAppend(acc: nat, s: string, c: char, base: nat)
    requires base <= 16 && AllDigits(s, base) && IsDigit(c, base)
    ensures AllDigits(s + [c], base) && IsDigit(c, 16)
    ensures ValueFrom(acc, s + [c], base) == ValueFrom(acc, s, base) * base + DigitValue(c)
    decreases |s|
  {
    hide *;
    AppendDigit(s, c, base);
    if s == "" {
      assert s + [c] == [c];
      ValueFromOne(acc, c, base);
    } else {
      ValueFromStep(acc, s, base);
      ValueFromStep(acc, s + [c], base);
      ValueFromAppend(acc * base + DigitValue(s[0]), s[1..], c, base);
      assert (s + [c])[0] == s[0] && (s + [c])[1..] == s[1..] + [c];
    }
  }

  /** Reading a numeral gives the number back. */
  lemma {:induction false} ValueOfNumeral(n: nat, base: nat)
    requires 2 <= base <= 16
    ensures AllDigits(Numeral(n, base), base) && ValueFrom(0, Numeral(n, base), base) == n
    decreases n
  {
    if n < base {
      assert ValueFrom(n, [], base) == n;
    } else {
      ValueOfNumeral(n / base, base);
      DivMod(n, base);
      ValueFromAppend(0, Numeral(n / base, base), Digit(n % base), base);
    }
  }

  lemma DivMod(n: nat, base: nat)
    requires base > 0
    ensures n / base * base + n % base == n
  {
  }

  /** No hexadecimal numeral but zero's starts with a zero. */
  lemma {:induction false} NoLeadingZero(n: nat)
    ensures Numeral(n, 16)[0] == '0' <==> n == 0
    decreases n
  {
    if n >= 16 {
      NoLeadingZero(n / 16);
    }
  }

  function Power16(k: nat): nat {
    if k == 0 then 1 else 16 * Power16(k - 1)
  }

  /** Numbers of 4k bits have at most k hexadecimal digits. */
  lemma {:induction false} HexLength(n: nat, k: nat)
    requires 1 <= k && n < Power16(k)
    ensures |Numeral(n, 16)| <= k
  {
    if n >= 16 {
      HexLength(n / 16, k - 1);
    }
  }

  lemma {:induction false} ValueGrows(acc: nat, s: string)
    requires AllDigits(s, 10)
    ensures ValueFrom(acc, s, 10) >= acc
    decreases |s|
  {
    if s != "" {
      ValueGrows(acc * 10 + DigitValue(s[0]), s[1..]);
    }
  }

  lemma {:induction false} ValuePositive(acc: nat, s: string)
    requires AllDigits(s, 16)
    requires acc > 0 || (s != "" && s[0] != '0')
    ensures ValueFrom(acc, s, 16) > 0
    decreases |s|
  {
    if s != "" {
      ValuePositive(acc * 16 + DigitValue(s[0]), s[1..]);
    }
  }

  lemma DigitOfValue(c: char)
    requires IsDigit(c, 16)
    ensures Digit(DigitValue(c)) == c
  {
  }

  /** Hexadecimal digits without a leading zero are the numeral of what they say. */
  lemma {:induction false} NumeralOfValue(s: string)
    requires AllDigits(s, 16) && s != "" && (|s| > 1 ==> s[0] != '0')
    ensures Numeral(ValueFrom(0, s, 16), 16) == s
    decreases |s|
  {
    var front, c := s[..|s| - 1], s[|s| - 1];
    assert s == front + [c];
    DigitOfValue(c);
    ValueFromAppend(0, front, c, 16);
    if front != "" {
      NumeralOfValue(front);
      ValuePositive(0, front);
    }
  }

  lemma {:induction false} ValueBoundFrom(acc: nat, s: string, k: nat)
    requires AllDigits(s, 16) && acc < Power16(k)
    ensures ValueFrom(acc, s, 16) < Power16(k + |s|)
    decreases |s|
  {
    if s != "" {
      ValueBoundFrom(acc * 16 + DigitValue(s[0]), s[1..], k + 1);
    }
  }

  /** k hexadecimal digits stay below 16 to the k. */
  lemma ValueBound(s: string)
    requires AllDigits(s, 16) && |s| <= 4
    ensures ValueFrom(0, s, 16) < Power16(4)
  {
    ValueBoundFrom(0, s, 0);
    assert Power16(0) == 1 && Power16(1) == 16 && Power16(2) == 256 && Power16(3) == 4096 && Power16(4) == 65536;
  }
}
