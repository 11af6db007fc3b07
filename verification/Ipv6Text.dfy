/** IPv6 addresses as text, in the form of RFC 5952. */
module Ipv6Text {
  import opened Bytes
  import opened Text
  import opened Numerals

  type Group = n: nat | n < 0x1_0000

  type Groups = g: seq<Group> | |g| == 8 witness [0, 0, 0, 0, 0, 0, 0, 0]

  type Address = a: bytes | |a| == 16 witness [0, 0, 0, 0, 0, 0, 0, 0, 0, 0, 0, 0, 0, 0, 0, 0]

  function GroupAt(a: Address, i: nat): Group
    requires i < 8
  {
    a[2 * i] as int * 256 + a[2 * i + 1] as int
  }

  /** The eight big-endian groups of an address. */
  function GroupsOf(a: Address): (g: Groups)
    ensures forall i :: 0 <= i < 8 ==> g[i] == GroupAt(a, i)
  {
    seq(8, i requires 0 <= i < 8 => GroupAt(a, i))
  }

  lemma GroupsDetermineAddress(a: Address, b: Address)
    requires GroupsOf(a) == GroupsOf(b)
    ensures a == b
  {
    forall i | 0 <= i < 8
      ensures a[2 * i] == b[2 * i] && a[2 * i + 1] == b[2 * i + 1]
    {
      assert GroupsOf(a)[i] == GroupsOf(b)[i];
    }
    forall k | 0 <= k < 16
      ensures a[k] == b[k]
    {
      assert k == 2 * (k / 2) || k == 2 * (k / 2) + 1;
    }
  }

  // ---------------------------------------------------------------- the longest zero run

  /** Groups s up to s + n are zero. */
  predicate ZeroRun(g: Groups, s: nat, n: nat) {
    s + n <= 8 && forall k :: s <= k < s + n ==> g[k] == 0
  }

  /**
   start and len name the leftmost longest run of at least two zero groups that ends by limit; -1 and 0 if there is
   none.
   */
  ghost predicate Best(g: Groups, limit: nat, start: int, len: nat) {
    if start < 0 then
      start == -1 && len == 0 && forall s: nat, n: nat :: ZeroRun(g, s, n) && s + n <= limit ==> n <= 1
    else
      && len >= 2 && ZeroRun(g, start, len) && start + len <= limit
      && forall s: nat, n: nat :: ZeroRun(g, s, n) && s + n <= limit ==> n < len || (n == len && start <= s)
  }

  lemma BestIsUnique(g: Groups, s: int, n: nat, t: int, m: nat)
    requires Best(g, 8, s, n) && Best(g, 8, t, m)
    ensures s == t && n == m
  {
  }

  /** The run the search is inside of, if cs is not negative, and the best run before it. */
  ghost predicate Searching(g: Groups, i: nat, cs: int, cl: nat, start: int, len: nat) {
    if cs < 0 then cl == 0 && Best(g, i, start, len) && (i == 0 || (i <= 8 && g[i - 1] != 0))
    else cl >= 1 && cs + cl == i && ZeroRun(g, cs, cl) && (cs == 0 || g[cs - 1] != 0) && Best(g, cs, start, len)
  }

  /** The best run once the one from cs to i is over. */
  lemma RunEnds(g: Groups, i: nat, cs: int, cl: nat, start: int, len: nat)
    requires i <= 8 && Searching(g, i, cs, cl, start, len)
    ensures if cl >= 2 && cl > len then Best(g, i, cs, cl) else Best(g, i, start, len)
  {
    if cs >= 0 {
      forall s: nat, n: nat | ZeroRun(g, s, n) && s + n <= i
        ensures s + n <= cs || cs <= s || n == 0
      {
      }
    }
  }

  /** The search of ipv6ToString. */
  method FindRun(g: Groups) returns (start: int, len: nat)
    ensures Best(g, 8, start, len)
  {
    start, len := -1, 0;
    var cs: int, cl: nat := -1, 0;
    var i: nat := 0;
    while i < 8
      invariant i <= 8
      invariant Searching(g, i, cs, cl, start, len)
    {
      if g[i] == 0 {
        if cs < 0 { cs, cl := i, 1; } else { cl := cl + 1; }
      } else {
        RunEnds(g, i, cs, cl, start, len);
        if cl >= 2 && cl > len { start, len := cs, cl; }
        PastNonZero(g, i, start, len);
        cs, cl := -1, 0;
      }
      i := i + 1;
    }
    RunEnds(g, i, cs, cl, start, len);
    if cl >= 2 && cl > len { start, len := cs, cl; }
  }

  lemma PastNonZero(g: Groups, i: nat, start: int, len: nat)
    requires i < 8 && g[i] != 0 && Best(g, i, start, len)
    ensures Best(g, i + 1, start, len)
  {
    forall s: nat, n: nat | ZeroRun(g, s, n) && s + n <= i + 1
      ensures s + n <= i || n == 0
    {
    }
  }

  // ---------------------------------------------------------------- printing

  function HexTexts(g: seq<Group>): (r: seq<string>)
    ensures |r| == |g| && forall i :: 0 <= i < |g| ==> r[i] == Numeral(g[i], 16)
  {
    seq(|g|, i requires 0 <= i < |g| => Numeral(g[i], 16))
  }

  /** Groups joined by colons. */
  function Colons(g: seq<Group>): string {
    Join(HexTexts(g), ':')
  }

  /** The text of a group list whose run of len groups at start is abbreviated. */
  function Shape(g: Groups, start: int, len: nat): string
    requires start < 0 || start + len <= 8
  {
    if start < 0 then Colons(g) else Colons(g[..start]) + "::" + Colons(g[start + len..])
  }

  /** The text of RFC 5952: the leftmost longest run of at least two zero groups is abbreviated, if there is one. */
  ghost predicate Printed(g: Groups, text: string) {
    exists start: int, len: nat :: Best(g, 8, start, len) && text == Shape(g, start, len)
  }

  lemma ColonsAppend(g: seq<Group>, x: Group)
    ensures Colons(g + [x]) == if g == [] then Numeral(x, 16) else Colons(g) + ":" + Numeral(x, 16)
  {
    if g == [] {
      assert HexTexts(g + [x]) == [Numeral(x, 16)];
    } else {
      assert HexTexts(g + [x]) == HexTexts(g) + [Numeral(x, 16)];
      JoinConcat(HexTexts(g), [Numeral(x, 16)], ':');
      assert ":" == [':'];
    }
  }

  /** What has been printed before group i. */
  function PrintedBefore(g: Groups, start: int, len: nat, i: nat): string
    requires start < 0 || (len >= 1 && start + len <= 8)
    requires i <= 8 && (i <= start || start < 0 || start + len <= i)
  {
    if start < 0 || i <= start then Colons(g[..i]) else Colons(g[..start]) + "::" + Colons(g[start + len..i])
  }

  lemma PrintedBeforeStep(g: Groups, start: int, len: nat, i: nat)
    requires start < 0 || (len >= 1 && start + len <= 8)
    requires i < 8 && i != start && (i < start || start < 0 || start + len <= i)
    ensures PrintedBefore(g, start, len, i + 1)
         == PrintedBefore(g, start, len, i) + (if i > 0 && (start < 0 || i != start + len) then ":" else "")
            + Numeral(g[i], 16)
  {
    if start < 0 || i < start {
      assert g[..i + 1] == g[..i] + [g[i]];
      hide Colons, Numeral;
      ColonsAppend(g[..i], g[i]);
    } else {
      var front, back := Colons(g[..start]) + "::", g[start + len..i];
      assert g[start + len..i + 1] == back + [g[i]];
      hide Colons, Numeral;
      ColonsAppend(back, g[i]);
      ConcatAssociates(front, Colons(back) + ":", Numeral(g[i], 16));
      ConcatAssociates(front, Colons(back), ":");
      if back == [] {
        NoColons();
        assert front + Colons(back) == front;
      }
    }
  }

  lemma NoColons()
    ensures Colons([]) == ""
  {
  }

  /** ipv6ToString */
  method Ipv6ToString(a: Address) returns (text: string)
    ensures Printed(GroupsOf(a), text)
  {
    var g := GroupsOf(a);
    var start, len := FindRun(g);
    text := "";
    var prevCollapsed := false;
    var i: nat := 0;
    while i < 8
      invariant i <= 8 && (i <= start || start < 0 || start + len <= i)
      invariant text == PrintedBefore(g, start, len, i)
      invariant prevCollapsed <==> start >= 0 && i == start + len
    {
      if i == start {
        text := text + "::";
        prevCollapsed := true;
        i := i + len;
      } else {
        PrintedBeforeStep(g, start, len, i);
        if i > 0 && !prevCollapsed { text := text + ":"; }
        prevCollapsed := false;
        text := text + Numeral(g[i], 16);
        i := i + 1;
      }
    }
    assert g[..8] == g;
    assert text == Shape(g, start, len);
  }

  // ---------------------------------------------------------------- reading the text back

  /** The position of the first "::". */
  function FirstDouble(t: string): (r: Option<nat>)
    ensures r.Some? ==> r.value + 2 <= |t|
  {
    if |t| < 2 then None
    else if t[0] == ':' && t[1] == ':' then Some(0)
    else
      match FirstDouble(t[1..])
      case None => None
      case Some(i) => Some(i + 1)
  }

  /** One to four lower-case hexadecimal digits. */
  predicate IsGroupText(t: string) {
    1 <= |t| <= 4 && AllDigits(t, 16)
  }

  function GroupValue(t: string): Group
    requires IsGroupText(t)
  {
    ValueBound(t);
    assert Power16(4) == 0x1_0000;
    ValueFrom(0, t, 16)
  }

  /** Groups separated by single colons; the empty text has none. */
  function ReadGroups(t: string): Option<seq<Group>> {
    if t == "" then Some([]) else ReadParts(Split(t, ':'))
  }

  function ReadParts(parts: seq<string>): Option<seq<Group>> {
    if parts == [] then Some([])
    else if !IsGroupText(parts[0]) then None
    else
      match ReadParts(parts[1..])
      case None => None
      case Some(rest) => Some([GroupValue(parts[0])] + rest)
  }

  function Zeros(n: nat): seq<Group> {
    seq(n, _ => 0)
  }

  /** The eight groups a text stands for, by section 2.2 of RFC 4291 for lower-case digits and no IPv4 tail. */
  function Expand(t: string): Option<seq<Group>> {
    match FirstDouble(t)
    case None =>
      (match ReadGroups(t)
       case None => None
       case Some(g) => if |g| == 8 then Some(g) else None)
    case Some(i) =>
      (match (ReadGroups(t[..i]), ReadGroups(t[i + 2..]))
       case (Some(front), Some(back)) =>
         if |front| + |back| < 8 then Some(front + Zeros(8 - |front| - |back|) + back) else None
       case _ => None)
  }

  /** No two colons in a row, and none at the end. */
  predicate SingleColons(t: string) {
    && (forall i :: 0 <= i < |t| - 1 ==> t[i] != ':' || t[i + 1] != ':')
    && (t == "" || t[|t| - 1] != ':')
  }

  lemma {:induction false} DoubleAfterFront(front: string, rest: string)
    requires SingleColons(front)
    ensures FirstDouble(front + "::" + rest) == Some(|front|)
  {
    var t := front + "::" + rest;
    if front != "" {
      DoubleAfterFront(front[1..], rest);
      assert t[1..] == front[1..] + "::" + rest;
      assert t[0] == front[0];
      if |front| > 1 {
        assert t[1] == front[1];
      }
    }
  }

  lemma {:induction false} NoDouble(t: string)
    requires SingleColons(t)
    ensures FirstDouble(t) == None
  {
    if |t| >= 2 {
      NoDouble(t[1..]);
    }
  }

  lemma GroupReadsBack(x: Group)
    ensures var t := Numeral(x, 16); IsGroupText(t) && ValueFrom(0, t, 16) == x && ':' !in t
  {
    ValueOfNumeral(x, 16);
    assert Power16(4) == 0x1_0000;
    HexLength(x, 4);
  }

  lemma {:induction false} ColonsAreSingle(g: seq<Group>)
    ensures SingleColons(Colons(g))
  {
    if g != [] {
      var t := Numeral(g[0], 16);
      GroupReadsBack(g[0]);
      assert SingleColons(t);
      assert HexTexts(g)[1..] == HexTexts(g[1..]);
      if |g| > 1 {
        ColonsAreSingle(g[1..]);
        ColonsStartWithDigit(g[1..]);
        var rest := Colons(g[1..]);
        assert Colons(g) == t + [':'] + rest;
      }
    }
  }

  lemma ColonsStartWithDigit(g: seq<Group>)
    requires g != []
    ensures Colons(g) != "" && Colons(g)[0] != ':'
  {
    GroupReadsBack(g[0]);
    assert Colons(g)[0] == Numeral(g[0], 16)[0];
  }

  lemma {:induction false} PartsReadBack(g: seq<Group>)
    ensures ReadParts(HexTexts(g)) == Some(g)
  {
    if g != [] {
      GroupReadsBack(g[0]);
      assert HexTexts(g)[1..] == HexTexts(g[1..]);
      PartsReadBack(g[1..]);
      assert g == [g[0]] + g[1..];
    }
  }

  lemma ColonsReadBack(g: seq<Group>)
    ensures ReadGroups(Colons(g)) == Some(g)
  {
    if g == [] {
      assert Colons(g) == "";
    } else {
      forall i | 0 <= i < |g|
        ensures ':' !in HexTexts(g)[i]
      {
        GroupReadsBack(g[i]);
      }
      SplitJoin(HexTexts(g), ':');
      ColonsStartWithDigit(g);
      PartsReadBack(g);
    }
  }

  /** A text cut at its first "::", or whole. */
  lemma ExpandAtDouble(front: string, back: string)
    requires SingleColons(front)
    ensures Expand(front + "::" + back) ==
            match (ReadGroups(front), ReadGroups(back))
            case (Some(f), Some(b)) => if |f| + |b| < 8 then Some(f + Zeros(8 - |f| - |b|) + b) else None
            case _ => None
  {
    DoubleAfterFront(front, back);
    var t := front + "::" + back;
    assert t[..|front|] == front;
    assert t[|front| + 2..] == back;
  }

  lemma ExpandUndoesShape(g: Groups, start: nat, len: nat)
    requires len > 0 && ZeroRun(g, start, len)
    ensures Expand(Shape(g, start, len)) == Some(g)
  {
    var front, back := g[..start], g[start + len..];
    assert Zeros(len) == g[start..start + len];
    assert g == front + Zeros(len) + back;
    hide Colons, Expand, ReadGroups, SingleColons, Zeros, ZeroRun;
    ColonsAreSingle(front);
    ExpandAtDouble(Colons(front), Colons(back));
    ColonsReadBack(front);
    ColonsReadBack(back);
  }

  /** Expanding the printed text gives the groups back. */
  lemma ExpandUndoesPrint(g: Groups, text: string)
    requires Printed(g, text)
    ensures Expand(text) == Some(g)
  {
    var start: int, len: nat :| Best(g, 8, start, len) && text == Shape(g, start, len);
    if start < 0 {
      ColonsAreSingle(g);
      NoDouble(text);
      ColonsReadBack(g);
    } else {
      ExpandUndoesShape(g, start, len);
    }
  }

  /** An address has one text. */
  lemma PrintingIsDeterministic(g: Groups, t: string, u: string)
    requires Printed(g, t) && Printed(g, u)
    ensures t == u
  {
    var s: int, n: nat :| Best(g, 8, s, n) && t == Shape(g, s, n);
    var r: int, m: nat :| Best(g, 8, r, m) && u == Shape(g, r, m);
    BestIsUnique(g, s, n, r, m);
  }

  /** No two addresses print alike. */
  lemma PrintingIsInjective(a: Address, b: Address, text: string)
    requires Printed(GroupsOf(a), text) && Printed(GroupsOf(b), text)
    ensures a == b
  {
    ExpandUndoesPrint(GroupsOf(a), text);
    ExpandUndoesPrint(GroupsOf(b), text);
    GroupsDetermineAddress(a, b);
  }

  // ---------------------------------------------------------------- the printed text is the only canonical one

  /** Section 4.1 of RFC 5952: no group text but "0" starts with a zero. */
  predicate NoLeadingZeros(t: string) {
    t == "" || forall part <- Split(t, ':') :: |part| > 1 ==> part[0] != '0'
  }

  /** Sections 4.1 to 4.3 of RFC 5952 for a text that stands for g. */
  ghost predicate Canonical(g: Groups, t: string) {
    match FirstDouble(t)
    case None => NoLeadingZeros(t) && Best(g, 8, -1, 0)
    case Some(i) =>
      && NoLeadingZeros(t[..i]) && NoLeadingZeros(t[i + 2..])
      && (match (ReadGroups(t[..i]), ReadGroups(t[i + 2..]))
          case (Some(front), Some(back)) => |front| + |back| < 8 && Best(g, 8, |front|, 8 - |front| - |back|)
          case _ => false)
  }

  lemma {:induction false} PartsAreNumerals(parts: seq<string>)
    requires ReadParts(parts).Some? && forall part <- parts :: |part| > 1 ==> part[0] != '0'
    ensures HexTexts(ReadParts(parts).value) == parts
  {
    hide Numeral, ValueFrom, Power16;
    if parts != [] {
      PartsAreNumerals(parts[1..]);
      NumeralOfValue(parts[0]);
      assert parts == [parts[0]] + parts[1..];
    }
  }

  lemma {:induction false} ReadGroupsAreColons(t: string)
    requires ReadGroups(t).Some? && NoLeadingZeros(t)
    ensures Colons(ReadGroups(t).value) == t
  {
    if t != "" {
      PartsAreNumerals(Split(t, ':'));
      JoinSplit(t, ':');
    }
  }

  /** The text of RFC 5952 for g is the printed one, and no other text is. */
  lemma PrintedIffCanonical(g: Groups, t: string)
    ensures Printed(g, t) <==> Expand(t) == Some(g) && Canonical(g, t)
  {
    if Printed(g, t) {
      ExpandUndoesPrint(g, t);
      PrintedIsCanonical(g, t);
    }
    if Expand(t) == Some(g) && Canonical(g, t) {
      CanonicalIsPrinted(g, t);
    }
  }

  lemma ColonsHaveNoLeadingZeros(g: seq<Group>)
    ensures NoLeadingZeros(Colons(g))
  {
    if g != [] {
      forall i | 0 <= i < |g|
        ensures ':' !in HexTexts(g)[i] && (|HexTexts(g)[i]| > 1 ==> HexTexts(g)[i][0] != '0')
      {
        GroupReadsBack(g[i]);
        NoLeadingZero(g[i]);
      }
      SplitJoin(HexTexts(g), ':');
    }
  }

  lemma PrintedIsCanonical(g: Groups, t: string)
    requires Printed(g, t)
    ensures Canonical(g, t)
  {
    var start: int, len: nat :| Best(g, 8, start, len) && t == Shape(g, start, len);
    if start < 0 {
      ColonsAreSingle(g);
      NoDouble(t);
      ColonsHaveNoLeadingZeros(g);
    } else {
      var front, back := g[..start], g[start + len..];
      hide Colons, ReadGroups, SingleColons, Best, NoLeadingZeros;
      ColonsAreSingle(front);
      DoubleAfterFront(Colons(front), Colons(back));
      assert t[..|Colons(front)|] == Colons(front);
      assert t[|Colons(front)| + 2..] == Colons(back);
      ColonsReadBack(front);
      ColonsReadBack(back);
      ColonsHaveNoLeadingZeros(front);
      ColonsHaveNoLeadingZeros(back);
    }
  }

  lemma CanonicalIsPrinted(g: Groups, t: string)
    requires Expand(t) == Some(g) && Canonical(g, t)
    ensures Printed(g, t)
  {
    hide NoLeadingZeros, Best, Colons, ReadGroups, FirstDouble, Zeros;
    match FirstDouble(t)
    case None =>
      ReadGroupsAreColons(t);
      assert t == Shape(g, -1, 0);
    case Some(i) =>
      DoubleIsThere(t);
      var front, back := t[..i], t[i + 2..];
      assert t == front + "::" + back;
      CanonicalAround(g, front, back);
  }

  lemma CanonicalAround(g: Groups, front: string, back: string)
    requires NoLeadingZeros(front) && NoLeadingZeros(back)
    requires ReadGroups(front).Some? && ReadGroups(back).Some?
    requires var f, b := ReadGroups(front).value, ReadGroups(back).value;
             |f| + |b| < 8 && g == f + Zeros(8 - |f| - |b|) + b && Best(g, 8, |f|, 8 - |f| - |b|)
    ensures Printed(g, front + "::" + back)
  {
    hide *;
    var f, b := ReadGroups(front).value, ReadGroups(back).value;
    ReadGroupsAreColons(front);
    ReadGroupsAreColons(back);
    ShapeOfPieces(g, f, 8 - |f| - |b|, b);
    PrintedAs(g, |f|, 8 - |f| - |b|, front + "::" + back);
  }

  lemma ShapeOfPieces(g: Groups, front: seq<Group>, len: nat, back: seq<Group>)
    requires |front| + len + |back| == 8 && g == front + Zeros(len) + back
    ensures Shape(g, |front|, len) == Colons(front) + "::" + Colons(back)
  {
    assert g[..|front|] == front && g[|front| + len..] == back;
  }

  lemma PrintedAs(g: Groups, start: nat, len: nat, t: string)
    requires Best(g, 8, start, len) && t == Shape(g, start, len)
    ensures Printed(g, t)
  {
  }

  lemma {:induction false} DoubleIsThere(t: string)
    requires FirstDouble(t).Some?
    ensures var i := FirstDouble(t).value; t[i] == ':' && t[i + 1] == ':'
  {
    if !(t[0] == ':' && t[1] == ':') {
      DoubleIsThere(t[1..]);
    }
  }
}
