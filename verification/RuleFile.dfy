/** The rule file itself: its section names, its port numbers as std::stoi reads them, and what is passed over. */
module RuleFile {
  import opened Bytes
  import opened Text
  import opened Numerals
  import opened AppTypes
  import opened Rules
  import opened RulePersistence
  import Ipv4Text

  // ---------------------------------------------------------------- numbers

  /** Space, tab, newline, vertical tab, form feed and carriage return. */
  predicate Blank(c: char) {
    c as int in {9, 10, 11, 12, 13, 32}
  }

  predicate Digits(s: string) {
    forall c <- s :: '0' <= c <= '9'
  }

  /** A text: blanks, a sign or none, digits, and a rest that does not begin with a digit. */
  predicate IsNumber(text: string, blanks: string, sign: string, digits: string, rest: string) {
    && text == blanks + (sign + (digits + rest))
    && (forall c <- blanks :: Blank(c))
    && (sign == "" || sign == "-" || sign == "+")
    && Digits(digits) && (rest == "" || !('0' <= rest[0] <= '9'))
    && (digits == "" && sign == "" && rest != "" ==> !Blank(rest[0]) && rest[0] != '-' && rest[0] != '+')
  }

  lemma DigitsAreDecimal(s: string)
    ensures Digits(s) <==> AllDigits(s, 10)
  {
    if Digits(s) {
      forall i | 0 <= i < |s|
        ensures IsDigit(s[i], 10)
      {
        assert s[i] in s;
      }
    }
  }

  /** The number the digits stand for, with its sign. */
  function Signed(sign: string, digits: string): int
    requires Digits(digits)
  {
    DigitsAreDecimal(digits);
    var magnitude: int := ValueFrom(0, digits, 10);
    if sign == "-" then -magnitude else magnitude
  }

  lemma {:induction false} LeadingDigitsAre(digits: string, rest: string)
    requires Digits(digits) && (rest == "" || !('0' <= rest[0] <= '9'))
    ensures LeadingDigits(digits + rest) == digits
  {
    if digits == "" {
      assert digits + rest == rest;
    } else {
      assert digits[0] in digits && forall c <- digits[1..] :: c in digits;
      assert (digits + rest)[0] == digits[0] && (digits + rest)[1..] == digits[1..] + rest;
      LeadingDigitsAre(digits[1..], rest);
      assert digits == [digits[0]] + digits[1..];
    }
  }

  lemma SignedStoi(sign: string, digits: string, rest: string)
    requires IsNumber(sign + (digits + rest), "", sign, digits, rest)
    ensures Stoi(sign + (digits + rest))
         == if digits == "" || !(-0x8000_0000 <= Signed(sign, digits) <= 0x7fff_ffff) then None
            else Some(Signed(sign, digits))
  {
    var text := sign + (digits + rest);
    LeadingDigitsAre(digits, rest);
    if sign == "" {
      assert text == digits + rest;
      if digits != "" { assert text[0] == digits[0] && digits[0] in digits; }
    } else {
      assert text[0] == sign[0] && text[1..] == digits + rest;
    }
  }

  /** std::stoi on a text of that form: its number, or an exception if there is none or it does not fit an int. */
  lemma {:induction false} StoiMeans(text: string, blanks: string, sign: string, digits: string, rest: string)
    requires IsNumber(text, blanks, sign, digits, rest)
    ensures Stoi(text)
         == if digits == "" || !(-0x8000_0000 <= Signed(sign, digits) <= 0x7fff_ffff) then None
            else Some(Signed(sign, digits))
    decreases |blanks|
  {
    if blanks == "" {
      assert text == sign + (digits + rest);
      SignedStoi(sign, digits, rest);
    } else {
      assert blanks[0] in blanks && text[0] == blanks[0];
      assert text[1..] == blanks[1..] + (sign + (digits + rest));
      StoiMeans(text[1..], blanks[1..], sign, digits, rest);
    }
  }

  lemma {:induction false} RestOfDigits(s: string) returns (rest: string)
    ensures s == LeadingDigits(s) + rest && Digits(LeadingDigits(s)) && (rest == "" || !('0' <= rest[0] <= '9'))
  {
    if s == "" || !Ipv4Text.Decimal(s[0]) {
      rest := s;
    } else {
      rest := RestOfDigits(s[1..]);
      assert s == [s[0]] + s[1..];
      assert [s[0]] + (LeadingDigits(s[1..]) + rest) == [s[0]] + LeadingDigits(s[1..]) + rest;
    }
  }

  /** Every text has that form. */
  lemma {:induction false} EveryTextIs(text: string)
    returns (blanks: string, sign: string, digits: string, rest: string)
    ensures IsNumber(text, blanks, sign, digits, rest)
  {
    blanks, sign := "", "";
    if text != "" && Blank(text[0]) {
      blanks, sign, digits, rest := EveryTextIs(text[1..]);
      assert text == [text[0]] + (blanks + (sign + (digits + rest)));
      blanks := [text[0]] + blanks;
      assert text == blanks + (sign + (digits + rest));
    } else {
      var body := text;
      if text != "" && (text[0] == '-' || text[0] == '+') {
        sign, body := [text[0]], text[1..];
      }
      rest := RestOfDigits(body);
      digits := LeadingDigits(body);
      assert text == sign + body;
      assert blanks + (sign + (digits + rest)) == sign + body;
    }
  }

  /** What a line of the port section loads: the number modulo 65536; without one, loading ends in an exception. */
  lemma PortLineMeans(r: Rules, text: string, blanks: string, sign: string, digits: string, rest: string)
    requires IsNumber(text, blanks, sign, digits, rest)
    ensures LoadLine(r, Ports, text)
         == if digits == "" || !(-0x8000_0000 <= Signed(sign, digits) <= 0x7fff_ffff) then Load(r, Threw)
            else Load(r.(ports := r.ports + {Signed(sign, digits) % 0x1_0000}), Done)
  {
    StoiMeans(text, blanks, sign, digits, rest);
    hide Stoi, IsNumber;
  }

  // ---------------------------------------------------------------- sections

  /** The four section names; under any other header, and before the first one, nothing is loaded. */
  lemma SectionNames(header: string)
    ensures SectionOf(header) == Addresses <==> header == "[BLOCKED_IPS]"
    ensures SectionOf(header) == Apps <==> header == "[BLOCKED_APPS]"
    ensures SectionOf(header) == Domains <==> header == "[BLOCKED_DOMAINS]"
    ensures SectionOf(header) == Ports <==> header == "[BLOCKED_PORTS]"
  {
    assert |IPS| == 13 && |APPS| == 14 && |DOMAINS| == 17 && |PORTS| == 15;
  }

  predicate NoHeader(lines: seq<string>) {
    forall l <- lines :: l == "" || l[0] != '['
  }

  lemma {:induction false} OtherSectionsAreIgnored(r: Rules, lines: seq<string>, rest: seq<string>)
    requires NoHeader(lines) && (rest == [] || (rest[0] != "" && rest[0][0] == '['))
    ensures LoadLines(r, Other, lines + rest)
         == if rest == [] then Load(r, Done) else LoadLines(r, SectionOf(rest[0]), rest[1..])
    decreases |lines|
  {
    if lines == [] {
      assert lines + rest == rest;
    } else {
      assert lines[0] in lines && (lines + rest)[1..] == lines[1..] + rest;
      OtherSectionsAreIgnored(r, lines[1..], rest);
    }
  }

  /** A name that is no application's is passed over. */
  lemma {:induction false} UnknownNameIsIgnored(r: Rules, line: string)
    requires forall a: AppType :: Name(a) != line
    ensures LoadLine(r, Apps, line) == Load(r, Done)
  {
    NoneNamed(line, All);
  }

  lemma {:induction false} NoneNamed(line: string, apps: seq<AppType>)
    requires forall a: AppType :: Name(a) != line
    ensures NamedApp(line, apps) == None
  {
    if apps != [] { NoneNamed(line, apps[1..]); }
  }

  /** Loading stops at the first line that ends it, with the rules loaded so far. */
  lemma LoadingStops(r: Rules, section: Section, line: string, rest: seq<string>)
    requires Content(line) && LoadLine(r, section, line).ending != Done
    ensures LoadLines(r, section, [line] + rest) == LoadLine(r, section, line)
  {
  }

  // ---------------------------------------------------------------- a whole file

  lemma {:induction false} NewlinesConcat(a: seq<string>, b: seq<string>)
    ensures WithNewlines(a + b) == WithNewlines(a) + WithNewlines(b)
  {
    if a == [] {
      assert a + b == b && WithNewlines(a) + WithNewlines(b) == WithNewlines(b);
    } else {
      assert (a + b)[0] == a[0] && (a + b)[1..] == a[1..] + b;
      NewlinesConcat(a[1..], b);
      assert a[0] + "\n" + (WithNewlines(a[1..]) + WithNewlines(b))
             == a[0] + "\n" + WithNewlines(a[1..]) + WithNewlines(b);
    }
  }

  lemma HeaderText(header: string)
    ensures WithNewlines([header]) == header + "\n" && WithNewlines(["", header]) == "\n" + header + "\n"
  {
    assert [header][1..] == [] && ["", header][1..] == [header];
    assert header + "\n" + "" == header + "\n" && "" + "\n" + (header + "\n") == "\n" + header + "\n";
  }

  /** The saved file: the four sections in order, each under its name, set off by empty lines. */
  lemma SavedFile(r: Rules, o: Orders)
    ensures Save(r, o)
         == "[BLOCKED_IPS]" + "\n" + WithNewlines(IpLines(o))
            + ("\n" + "[BLOCKED_APPS]" + "\n" + WithNewlines(AppLines(o))
               + ("\n" + "[BLOCKED_DOMAINS]" + "\n" + WithNewlines(DomainLines(r, o))
                  + ("\n" + "[BLOCKED_PORTS]" + "\n" + WithNewlines(PortLines(o)))))
  {
    var ports := ["", PORTS] + PortLines(o);
    var domains := ["", DOMAINS] + DomainLines(r, o) + ports;
    var apps := ["", APPS] + AppLines(o) + domains;
    assert SavedLines(r, o) == [IPS] + IpLines(o) + apps;
    HeaderText("[BLOCKED_IPS]");
    HeaderText("[BLOCKED_APPS]");
    HeaderText("[BLOCKED_DOMAINS]");
    HeaderText("[BLOCKED_PORTS]");
    hide WithNewlines, IpLines, AppLines, DomainLines, PortLines, SavedLines;
    NewlinesConcat([IPS] + IpLines(o), apps);
    NewlinesConcat([IPS], IpLines(o));
    NewlinesConcat(["", APPS] + AppLines(o), domains);
    NewlinesConcat(["", APPS], AppLines(o));
    NewlinesConcat(["", DOMAINS] + DomainLines(r, o), ports);
    NewlinesConcat(["", DOMAINS], DomainLines(r, o));
    NewlinesConcat(["", PORTS], PortLines(o));
  }
}
