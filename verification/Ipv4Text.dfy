/** IPv4 addresses as text. The low byte of the 32-bit word is the first octet. */
module Ipv4Text {
  import opened Bytes
  import opened Text
  import opened Numerals

  const INT_MAX: nat := 0x7fff_ffff

  // ---------------------------------------------------------------- bitwise or

  /** Bitwise or of two numbers. */
  function Or(x: nat, y: nat): (z: nat)
    ensures z >= x && z >= y
    decreases x + y
  {
    if x == 0 then y
    else if y == 0 then x
    else 2 * Or(x / 2, y / 2) + if x % 2 == 1 || y % 2 == 1 then 1 else 0
  }

  lemma {:induction false} OrBound(x: nat, y: nat, k: nat)
    requires x < Left(1, k) && y < Left(1, k)
    ensures Or(x, y) < Left(1, k)
    decreases k
  {
    if x > 0 && y > 0 { OrBound(x / 2, y / 2, k - 1); }
  }

  /** n with k zero bits behind it. */
  function Left(n: nat, k: nat): nat {
    if k == 0 then n else 2 * Left(n, k - 1)
  }

  lemma {:induction false} LeftFurther(n: nat, j: nat, k: nat)
    ensures Left(n, j + k) == Left(Left(n, j), k)
    decreases k
  {
    if k > 0 { LeftFurther(n, j, k - 1); }
  }

  /** Shifting left by whole octets. */
  lemma LeftByOctets(n: nat)
    ensures Left(n, 0) == n && Left(n, 8) == n * 0x100 && Left(n, 16) == n * 0x1_0000
    ensures Left(n, 24) == n * 0x100_0000 && Left(n, 32) == n * 0x1_0000_0000
  {
    EightBits(n);
    LeftFurther(n, 8, 8);
    EightBits(Left(n, 8));
    LeftFurther(n, 16, 8);
    EightBits(Left(n, 16));
    LeftFurther(n, 24, 8);
    EightBits(Left(n, 24));
  }

  lemma EightBits(n: nat)
    ensures Left(n, 8) == n * 0x100
  {
    assert Left(n, 1) == 2 * n && Left(n, 2) == 2 * Left(n, 1);
    assert Left(n, 3) == 2 * Left(n, 2) && Left(n, 4) == 2 * Left(n, 3);
    assert Left(n, 5) == 2 * Left(n, 4) && Left(n, 6) == 2 * Left(n, 5);
    assert Left(n, 7) == 2 * Left(n, 6) && Left(n, 8) == 2 * Left(n, 7);
  }

  /** Bits that do not meet add up. */
  lemma {:induction false} OrDisjoint(x: nat, y: nat, k: nat)
    requires x < Left(1, k)
    ensures Or(x, Left(y, k)) == x + Left(y, k)
    decreases k
  {
    if x > 0 && Left(y, k) > 0 { OrDisjoint(x / 2, y, k - 1); }
  }

  function OrWord(x: Word, y: Word): (z: Word)
    ensures z == Or(x, y)
  {
    LeftByOctets(1);
    OrBound(x, y, 32);
    Or(x, y)
  }

  // ---------------------------------------------------------------- printing and parsing

  /** (ip >> 8 i) & 0xFF */
  function Octet(ip: Word, i: nat): (o: nat)
    requires i < 4
    ensures o < 256
  {
    match i
    case 0 => ip % 256
    case 1 => ip / 0x100 % 256
    case 2 => ip / 0x1_0000 % 256
    case _ => ip / 0x100_0000
  }

  function Octets(ip: Word): seq<string> {
    [Numeral(Octet(ip, 0), 10), Numeral(Octet(ip, 1), 10), Numeral(Octet(ip, 2), 10), Numeral(Octet(ip, 3), 10)]
  }

  /** ipv4ToString */
  function Print(ip: Word): string {
    Join(Octets(ip), '.')
  }

  /** static_cast<uint32_t>(octet) << shift */
  function Shifted(octet: nat, shift: nat): Word
    requires shift < 32
  {
    Left(octet, shift) % 0x1_0000_0000
  }

  /** One octet or-ed into the word; None where shifting by 32 or more is undefined. */
  function Place(result: Word, octet: nat, shift: nat): Option<Word> {
    if shift >= 32 then None else Some(OrWord(result, Shifted(octet, shift)))
  }

  predicate Decimal(c: char) {
    '0' <= c <= '9'
  }

  /** parseIPv4Address from the middle of its loop; None where a shift or the signed octet leaves its range. */
  function ParseFrom(result: Word, octet: nat, shift: nat, rest: string): Option<Word>
    requires octet <= INT_MAX
    decreases |rest|
  {
    if rest == "" then Place(result, octet, shift)
    else if rest[0] == '.' then
      match Place(result, octet, shift)
      case None => None
      case Some(r) => ParseFrom(r, 0, shift + 8, rest[1..])
    else if Decimal(rest[0]) then
      var next := octet * 10 + (rest[0] as int - '0' as int);
      if next > INT_MAX then None else ParseFrom(result, next, shift, rest[1..])
    else ParseFrom(result, octet, shift, rest[1..])
  }

  /** What parseIPv4Address makes of a text. */
  function Parsed(text: string): Option<Word> {
    ParseFrom(0, 0, 0, text)
  }

  /** parseIPv4Address */
  method ParseIpv4Address(ip: string) returns (parsed: Option<Word>)
    ensures parsed == Parsed(ip)
  {
    var result: Word := 0;
    var octet: nat := 0;
    var shift: nat := 0;
    hide OrWord, Shifted;
    for i := 0 to |ip|
      invariant octet <= INT_MAX
      invariant Parsed(ip) == ParseFrom(result, octet, shift, ip[i..])
    {
      assert ip[i..][1..] == ip[i + 1..];
      if ip[i] == '.' {
        if shift >= 32 { return None; }
        result := OrWord(result, Shifted(octet, shift));
        shift := shift + 8;
        octet := 0;
      } else if Decimal(ip[i]) {
        if octet * 10 + (ip[i] as int - '0' as int) > INT_MAX { return None; }
        octet := octet * 10 + (ip[i] as int - '0' as int);
      }
    }
    if shift >= 32 { return None; }
    return Some(OrWord(result, Shifted(octet, shift)));
  }

  // ---------------------------------------------------------------- what a text means

  /** Anything but digits is ignored inside a part. */
  function DigitsOf(part: string): (s: string)
    ensures AllDigits(s, 10)
  {
    if part == "" then ""
    else if Decimal(part[0]) then [part[0]] + DigitsOf(part[1..])
    else DigitsOf(part[1..])
  }

  /** The number a part's digits spell. */
  function Value(part: string): nat {
    ValueFrom(0, DigitsOf(part), 10)
  }

  /** The parts' values or-ed into a word, eight bits apart. */
  function Combine(word: Word, parts: seq<string>, shift: nat): Option<Word>
    decreases |parts|
  {
    if parts == [] then Some(word)
    else if shift >= 32 || Value(parts[0]) > INT_MAX then None
    else Combine(OrWord(word, Shifted(Value(parts[0]), shift)), parts[1..], shift + 8)
  }

  lemma {:induction false} ParseFromParts(result: Word, octet: nat, shift: nat, rest: string)
    requires octet <= INT_MAX
    ensures var parts := Split(rest, '.');
            var first := ValueFrom(octet, DigitsOf(parts[0]), 10);
            ParseFrom(result, octet, shift, rest)
            == if shift >= 32 || first > INT_MAX then None
               else Combine(OrWord(result, Shifted(first, shift)), parts[1..], shift + 8)
    decreases |rest|
  {
    hide OrWord, Shifted;
    var parts := Split(rest, '.');
    if rest == "" {
    } else if rest[0] == '.' {
      var more := Split(rest[1..], '.');
      assert parts[1..] == more;
      if shift < 32 {
        ParseFromParts(OrWord(result, Shifted(octet, shift)), 0, shift + 8, rest[1..]);
      }
    } else {
      var more := Split(rest[1..], '.');
      assert parts[0] == [rest[0]] + more[0] && parts[1..] == more[1..];
      assert parts[0][1..] == more[0];
      if Decimal(rest[0]) {
        var next := octet * 10 + (rest[0] as int - '0' as int);
        assert DigitsOf(parts[0]) == [rest[0]] + DigitsOf(more[0]);
        assert DigitsOf(parts[0])[1..] == DigitsOf(more[0]);
        if next > INT_MAX {
          ValueGrows(next, DigitsOf(more[0]));
        } else {
          ParseFromParts(result, next, shift, rest[1..]);
        }
      } else {
        ParseFromParts(result, octet, shift, rest[1..]);
      }
    }
  }

  /** The parser reads every text part by part. */
  lemma ParseMeans(text: string)
    ensures Parsed(text) == Combine(0, Split(text, '.'), 0)
  {
    hide OrWord, Shifted, Split, DigitsOf;
    ParseFromParts(0, 0, 0, text);
  }

  /** At most four parts, none beyond a signed 32-bit number. */
  predicate InRange(text: string) {
    var parts := Split(text, '.');
    |parts| <= 4 && forall i :: 0 <= i < |parts| ==> Value(parts[i]) <= 0x7fff_ffff
  }

  /** Exactly the texts on which the parser's arithmetic stays in range. */
  lemma ParseDefinedIff(text: string)
    ensures Parsed(text).Some? <==> InRange(text)
  {
    ParseMeans(text);
    CombineDefinedIff(0, Split(text, '.'), 0);
  }

  lemma {:induction false} CombineDefinedIff(word: Word, parts: seq<string>, k: nat)
    requires k <= 4
    ensures Combine(word, parts, 8 * k).Some?
            <==> k + |parts| <= 4 && forall i :: 0 <= i < |parts| ==> Value(parts[i]) <= INT_MAX
    decreases |parts|
  {
    hide OrWord, Shifted, Value;
    if parts != [] {
      assert parts == [parts[0]] + parts[1..];
      if k < 4 && Value(parts[0]) <= INT_MAX {
        CombineDefinedIff(OrWord(word, Shifted(Value(parts[0]), 8 * k)), parts[1..], k + 1);
      }
    }
  }

  // ---------------------------------------------------------------- which texts give zero

  /** No part leaves a bit in its place of the word. */
  predicate LeavesNoBits(parts: seq<string>, k: nat) {
    forall i :: 0 <= i < |parts| && k + i < 4 ==> Left(Value(parts[i]), 8 * (k + i)) % 0x1_0000_0000 == 0
  }

  lemma {:induction false} CombineZeroIff(word: Word, parts: seq<string>, k: nat)
    requires k <= 4
    ensures Combine(word, parts, 8 * k) == Some(0)
            <==> word == 0 && Combine(word, parts, 8 * k).Some? && LeavesNoBits(parts, k)
    decreases |parts|
  {
    if parts != [] && k < 4 && Value(parts[0]) <= INT_MAX {
      var bits := Shifted(Value(parts[0]), 8 * k);
      var next := OrWord(word, bits);
      LeavesNoBitsStep(parts, k);
      hide OrWord, Shifted, Value, LeavesNoBits;
      CombineZeroIff(next, parts[1..], k + 1);
      CombineDefinedIff(word, parts, k);
      CombineDefinedIff(next, parts[1..], k + 1);
      assert next == 0 <==> word == 0 && bits == 0;
    }
  }

  lemma LeavesNoBitsStep(parts: seq<string>, k: nat)
    requires parts != [] && k < 4
    ensures LeavesNoBits(parts, k) <==> Shifted(Value(parts[0]), 8 * k) == 0 && LeavesNoBits(parts[1..], k + 1)
  {
    hide Value, Left;
    if LeavesNoBits(parts, k) {
      forall i | 0 <= i < |parts[1..]| && k + 1 + i < 4
        ensures Left(Value(parts[1..][i]), 8 * (k + 1 + i)) % 0x1_0000_0000 == 0
      {
        assert parts[1..][i] == parts[i + 1] && k + 1 + i == k + (i + 1);
      }
    }
    if Shifted(Value(parts[0]), 8 * k) == 0 && LeavesNoBits(parts[1..], k + 1) {
      forall i | 0 <= i < |parts| && k + i < 4
        ensures Left(Value(parts[i]), 8 * (k + i)) % 0x1_0000_0000 == 0
      {
        if i > 0 { assert parts[i] == parts[1..][i - 1] && k + 1 + (i - 1) == k + i; }
      }
    }
  }

  /**
   Exactly the texts the parser reads as 0: the arithmetic stays in range, and the first number is 0, the second a
   multiple of 2^24, the third of 2^16, the fourth of 2^8, as far as there are so many.
   */
  lemma ParsesToZeroIff(text: string)
    ensures Parsed(text) == Some(0) <==> InRange(text) && LeavesNoBits(Split(text, '.'), 0)
  {
    ParseMeans(text);
    ParseDefinedIff(text);
    CombineZeroIff(0, Split(text, '.'), 0);
  }

  /** Four parts of digits, each an octet. */
  predicate DottedDecimal(text: string) {
    var parts := Split(text, '.');
    |parts| == 4 && forall i :: 0 <= i < 4 ==> parts[i] != "" && AllDigits(parts[i], 10) && Value(parts[i]) < 256
  }

  /** Every number in the text is an octet. */
  predicate OctetNumbers(text: string) {
    var parts := Split(text, '.');
    forall i :: 0 <= i < |parts| ==> Value(parts[i]) < 256
  }

  lemma OctetLeavesNoBits(n: nat, i: nat)
    requires n < 256 && i < 4
    ensures Left(n, 8 * i) % 0x1_0000_0000 == 0 <==> n == 0
  {
    LeftByOctets(n);
    assert i == 0 || i == 1 || i == 2 || i == 3;
  }

  lemma OctetsLeaveNoBits(text: string)
    requires OctetNumbers(text)
    ensures var parts := Split(text, '.');
            InRange(text) && LeavesNoBits(parts, 0) <==>
            |parts| <= 4 && forall i :: 0 <= i < |parts| ==> Value(parts[i]) == 0
  {
    var parts := Split(text, '.');
    hide Split, Value, Left;
    forall i | 0 <= i < |parts| && i < 4
      ensures Left(Value(parts[i]), 8 * (0 + i)) % 0x1_0000_0000 == 0 <==> Value(parts[i]) == 0
    {
      OctetLeavesNoBits(Value(parts[i]), i);
    }
  }

  /**
   The header promises 0 for every text that is not dotted decimal. Exactly these texts keep the promise: dotted
   decimal ones, of which it says nothing, and those whose numbers leave no bit behind. Where all numbers are octets,
   the malformed texts that keep it are those of at most four parts whose numbers are all 0.
   */
  lemma MalformedGivesZeroIff(text: string)
    ensures (!DottedDecimal(text) ==> Parsed(text) == Some(0)) <==>
            DottedDecimal(text) || (InRange(text) && LeavesNoBits(Split(text, '.'), 0))
    ensures OctetNumbers(text) && !DottedDecimal(text) ==>
              var parts := Split(text, '.');
              Parsed(text) == Some(0) <==> |parts| <= 4 && forall i :: 0 <= i < |parts| ==> Value(parts[i]) == 0
  {
    ParsesToZeroIff(text);
    if OctetNumbers(text) { OctetsLeaveNoBits(text); }
    hide Parsed, DottedDecimal, InRange, LeavesNoBits, OctetNumbers;
  }

  // ---------------------------------------------------------------- round trips

  lemma {:induction false} DigitsOfDigits(s: string)
    requires AllDigits(s, 10)
    ensures DigitsOf(s) == s
  {
    if s != "" {
      DigitsOfDigits(s[1..]);
      assert s == [s[0]] + s[1..];
    }
  }

  lemma DecimalReadsBack(n: nat)
    ensures Value(Numeral(n, 10)) == n
    ensures '.' !in Numeral(n, 10) && '\n' !in Numeral(n, 10) && Decimal(Numeral(n, 10)[0])
  {
    ValueOfNumeral(n, 10);
    DigitsOfDigits(Numeral(n, 10));
  }

  lemma ShiftedOctet(o: nat)
    requires o < 256
    ensures Shifted(o, 0) == o && Shifted(o, 8) == Left(o, 8) == o * 0x100
    ensures Shifted(o, 16) == Left(o, 16) == o * 0x1_0000 && Shifted(o, 24) == Left(o, 24) == o * 0x100_0000
  {
    LeftByOctets(o);
    hide Left;
  }

  /** An octet or-ed in above the bits of a word so far. */
  lemma OctetAdded(word: Word, o: nat, shift: nat, unit: nat)
    requires o < 256 && word < unit
    requires (shift, unit) in {(0, 1), (8, 0x100), (16, 0x1_0000), (24, 0x100_0000)}
    ensures OrWord(word, Shifted(o, shift)) == word + o * unit
  {
    ShiftedOctet(o);
    LeftByOctets(1);
    hide Or, Shifted, Left;
    OrDisjoint(word, o, shift);
  }

  lemma OctetsAddUp(a: nat, b: nat, c: nat, d: nat)
    requires a < 256 && b < 256 && c < 256 && d < 256
    ensures OrWord(OrWord(OrWord(OrWord(0, Shifted(a, 0)), Shifted(b, 8)), Shifted(c, 16)), Shifted(d, 24))
         == a + b * 0x100 + c * 0x1_0000 + d * 0x100_0000
  {
    hide *;
    OctetAdded(0, a, 0, 1);
    OctetAdded(a, b, 8, 0x100);
    OctetAdded(a + b * 0x100, c, 16, 0x1_0000);
    OctetAdded(a + b * 0x100 + c * 0x1_0000, d, 24, 0x100_0000);
  }

  /** The k-th part's octet joins the word. */
  lemma CombineStep(word: Word, parts: seq<string>, k: nat, shift: nat)
    requires k < |parts| && shift < 32 && Value(parts[k]) < 256
    ensures Combine(word, parts[k..], shift)
            == Combine(OrWord(word, Shifted(Value(parts[k]), shift)), parts[k + 1..], shift + 8)
  {
    hide OrWord, Shifted, Value;
    assert parts[k..][0] == parts[k] && parts[k..][1..] == parts[k + 1..];
  }

  lemma CombineDone(word: Word, parts: seq<string>)
    ensures forall shift :: Combine(word, parts[|parts|..], shift) == Some(word)
    ensures parts[0..] == parts
  {
  }

  lemma CombineDotted(parts: seq<string>)
    requires |parts| == 4
    requires Value(parts[0]) < 256 && Value(parts[1]) < 256 && Value(parts[2]) < 256 && Value(parts[3]) < 256
    ensures Combine(0, parts, 0)
         == Some(Value(parts[0]) + Value(parts[1]) * 0x100 + Value(parts[2]) * 0x1_0000 + Value(parts[3]) * 0x100_0000)
  {
    hide *;
    var a, b, c, d := Value(parts[0]), Value(parts[1]), Value(parts[2]), Value(parts[3]);
    OctetsAddUp(a, b, c, d);
    var w1 := OrWord(0, Shifted(a, 0));
    var w2 := OrWord(w1, Shifted(b, 8));
    var w3 := OrWord(w2, Shifted(c, 16));
    CombineStep(0, parts, 0, 0);
    CombineStep(w1, parts, 1, 8);
    CombineStep(w2, parts, 2, 16);
    CombineStep(w3, parts, 3, 24);
    CombineDone(OrWord(w3, Shifted(d, 24)), parts);
  }

  /** Parsing undoes printing on all 32-bit words. */
  lemma ParseUndoesPrint(ip: Word)
    ensures Parsed(Print(ip)) == Some(ip)
  {
    var parts := Octets(ip);
    DecimalReadsBack(Octet(ip, 0));
    DecimalReadsBack(Octet(ip, 1));
    DecimalReadsBack(Octet(ip, 2));
    DecimalReadsBack(Octet(ip, 3));
    OctetsRebuild(ip);
    hide Numeral, Octet, Value, Parsed;
    SplitJoin(parts, '.');
    ParseMeans(Join(parts, '.'));
    CombineDotted(parts);
  }

  lemma OctetsRebuild(ip: Word)
    ensures Octet(ip, 0) + Octet(ip, 1) * 0x100 + Octet(ip, 2) * 0x1_0000 + Octet(ip, 3) * 0x100_0000 == ip
  {
    assert ip / 0x1_0000 == ip / 0x100 / 0x100 && ip / 0x100_0000 == ip / 0x1_0000 / 0x100;
  }

  lemma PrintInjective(x: Word, y: Word)
    requires Print(x) == Print(y)
    ensures x == y
  {
    ParseUndoesPrint(x);
    ParseUndoesPrint(y);
  }

  // ---------------------------------------------------------------- two malformed texts that break the promise

  /** A missing octet. */
  lemma TwoPartsAreNotZero()
    ensures !DottedDecimal("1.2") && Parsed("1.2") == Some(513)
  {
    assert Numeral(1, 10) == "1" && Numeral(2, 10) == "2";
    DecimalReadsBack(1);
    DecimalReadsBack(2);
    SplitWithout("1", '.');
    SplitWithout("2", '.');
    SplitConcat("1", '.', "2");
    assert "1.2" == "1" + ['.'] + "2";
    assert Split("1.2", '.') == ["1"] + ["2"];
    ParseMeans("1.2");
    OctetsAddUp(1, 2, 0, 0);
    ShiftedOctet(0);
    var parts := ["1"] + ["2"];
    hide OrWord, Shifted, Value, Split, Parsed, Combine;
    var w := OrWord(0, Shifted(1, 0));
    CombineDone(0, parts);
    CombineStep(0, parts, 0, 0);
    CombineStep(w, parts, 1, 8);
    CombineDone(OrWord(w, Shifted(2, 8)), parts);
    NothingAdded(OrWord(w, Shifted(2, 8)));
  }

  lemma NothingAdded(word: Word)
    ensures OrWord(word, 0) == word
  {
  }

  /** Stray letters. */
  lemma LettersAreNotZero()
    ensures !DottedDecimal("host7") && Parsed("host7") == Some(7)
  {
    var t := "host7";
    SplitWithout(t, '.');
    ParseMeans(t);
    assert t[1..] == "ost7" && t[1..][1..] == "st7" && t[1..][1..][1..] == "t7" && t[1..][1..][1..][1..] == "7";
    assert DigitsOf(t) == DigitsOf("ost7") == DigitsOf("st7") == DigitsOf("t7") == DigitsOf("7");
    assert Numeral(7, 10) == "7";
    DecimalReadsBack(7);
    ShiftedOctet(7);
    assert OrWord(0, 7) == 7;
    hide OrWord, Shifted, Split, Parsed, DigitsOf;
    CombineDone(0, [t]);
    CombineStep(0, [t], 0, 0);
    CombineDone(7, [t]);
  }
}
