/** Letter case, letter by letter: texts that differ in nothing else are one rule, and one host. */
module LetterCase {
  import opened Text
  import opened Rules

  const CAPITALS: string := "ABCDEFGHIJKLMNOPQRSTUVWXYZ"
  const SMALL: string := "abcdefghijklmnopqrstuvwxyz"

  /** a is the capital of the small letter b. */
  predicate CapitalOf(a: char, b: char) {
    exists i :: 0 <= i < 26 && a == CAPITALS[i] && b == SMALL[i]
  }

  predicate IsCapital(a: char) {
    a in CAPITALS
  }

  /** The same character, or the same letter in the other case. */
  predicate SameLetter(a: char, b: char) {
    a == b || CapitalOf(a, b) || CapitalOf(b, a)
  }

  predicate SameButCase(s: string, t: string) {
    |s| == |t| && forall i :: 0 <= i < |s| ==> SameLetter(s[i], t[i])
  }

  lemma LetterAt(i: nat)
    requires i < 26
    ensures CAPITALS[i] == 'A' + i as char && SMALL[i] == 'a' + i as char
  {
  }

  lemma CapitalOfIff(a: char, b: char)
    ensures CapitalOf(a, b) <==> 'A' <= a <= 'Z' && b == a + 32 as char
    ensures IsCapital(a) <==> 'A' <= a <= 'Z'
  {
    if 'A' <= a <= 'Z' {
      var i := (a - 'A') as int;
      LetterAt(i);
      assert a == CAPITALS[i];
    }
    if i :| 0 <= i < 26 && a == CAPITALS[i] { LetterAt(i); }
    if i :| 0 <= i < 26 && a == CAPITALS[i] && b == SMALL[i] { LetterAt(i); }
  }

  /** Lowering tells characters apart exactly if more than their case differs. */
  lemma LowersAlikeIff(a: char, b: char)
    ensures LowerChar(a) == LowerChar(b) <==> SameLetter(a, b)
    ensures SameLetter(LowerChar(a), a) && !IsCapital(LowerChar(a))
  {
    hide CapitalOf, IsCapital;
    CapitalOfIff(a, b);
    CapitalOfIff(b, a);
    CapitalOfIff(a, LowerChar(a));
    CapitalOfIff(LowerChar(a), a);
  }

  lemma LoweredAlikeIff(s: string, t: string)
    ensures Lower(s) == Lower(t) <==> SameButCase(s, t)
  {
    forall i | 0 <= i < |s| && i < |t|
      ensures LowerChar(s[i]) == LowerChar(t[i]) <==> SameLetter(s[i], t[i])
    {
      LowersAlikeIff(s[i], t[i]);
    }
    if Lower(s) == Lower(t) {
      forall i | 0 <= i < |s|
        ensures SameLetter(s[i], t[i])
      {
        assert Lower(s)[i] == Lower(t)[i];
      }
    }
  }

  /** s without one trailing dot. */
  function Undotted(s: string): string {
    if s != "" && s[|s| - 1] == '.' then s[..|s| - 1] else s
  }

  lemma NormalizeIs(s: string)
    ensures Normalize(s) == Lower(Undotted(s))
  {
    if s != "" {
      var last := s[|s| - 1];
      CapitalOfIff(last, '.');
      assert LowerChar(last) == '.' <==> last == '.';
      assert Lower(s[..|s| - 1]) == Lower(s)[..|s| - 1];
    }
  }

  /** The normal form of a text: it has no capitals, and but for case it is the text without one trailing dot. */
  lemma NormalFormIff(s: string, n: string)
    ensures n == Normalize(s) <==> SameButCase(n, Undotted(s)) && forall c <- n :: !IsCapital(c)
  {
    NormalizeIs(s);
    var t := Undotted(s);
    LoweredAlikeIff(n, t);
    LowerHasNoCapitals(t);
    LowerIdempotent(t);
    if forall c <- n :: !IsCapital(c) { NothingToLower(n); }
  }

  lemma LowerHasNoCapitals(s: string)
    ensures forall c <- Lower(s) :: !IsCapital(c)
  {
    forall i | 0 <= i < |s|
      ensures !IsCapital(Lower(s)[i])
    {
      LowersAlikeIff(s[i], s[i]);
    }
  }

  lemma NothingToLower(s: string)
    requires forall c <- s :: !IsCapital(c)
    ensures Lower(s) == s
  {
    forall i | 0 <= i < |s|
      ensures Lower(s)[i] == s[i]
    {
      assert s[i] in s;
      CapitalOfIff(s[i], s[i]);
    }
  }

  lemma SameNormalForm(s: string, t: string)
    requires SameButCase(s, t)
    ensures Normalize(s) == Normalize(t)
  {
    LoweredAlikeIff(s, t);
  }

  /** Texts that are equal letter for letter up to case are one rule and one host. */
  lemma CaseDoesNotMatter(r: Rules, rule1: string, rule2: string, host1: string, host2: string)
    requires SameButCase(rule1, rule2) && SameButCase(host1, host2)
    ensures BlockDomain(r, rule1) == BlockDomain(r, rule2) && UnblockDomain(r, rule1) == UnblockDomain(r, rule2)
    ensures DomainBlocked(BlockDomain(r, rule1), host1) == DomainBlocked(BlockDomain(r, rule2), host2)
    ensures DomainBlocked(r, host1) == DomainBlocked(r, host2)
  {
    SameNormalForm(rule1, rule2);
    SameNormalForm(host1, host2);
    hide Normalize, SameButCase;
  }

  /** In particular a rule blocks its own text, its subdomains, and both in any letter case. */
  lemma RuleBlocksItsTextInAnyCase(r: Rules, rule: string, host: string, name: string)
    requires rule != "" && '*' !in rule && rule[|rule| - 1] != '.' && name != ""
    requires SameButCase(host, rule) || SameButCase(host, name + "." + rule)
    ensures DomainBlocked(BlockDomain(r, rule), host)
  {
    var d, h := Normalize(rule), Normalize(host);
    assert '*' !in d;
    if SameButCase(host, rule) {
      SameNormalForm(host, rule);
    } else {
      var sub := name + "." + rule;
      SameNormalForm(host, sub);
      assert Lower(sub) == Lower(name) + "." + Lower(rule);
      assert h == Lower(sub) && d == Lower(rule);
      assert h[|h| - |d| - 1] == '.' && h[|h| - |d|..] == d;
      assert StrictlyBelow(h, d);
    }
  }
}
