/** Blocking rules: normalisation, wildcard patterns, and the domain decision against a label-list specification. */
module Rules {
  import opened Bytes
  import opened Text
  import opened AppTypes

  type Port = n: nat | n < 0x1_0000

  datatype Rules = Rules(ips: set<Word>, apps: set<AppType>, domains: set<string>, patterns: seq<string>,
    ports: set<Port>)

  const Empty: Rules := Rules({}, {}, {}, [], {})

  // ---------------------------------------------------------------- normal form

  function LowerChar(c: char): char {
    if 'A' <= c <= 'Z' then c + 32 as char else c
  }

  function Lower(s: string): (r: string)
    ensures |r| == |s| && forall i :: 0 <= i < |s| ==> r[i] == LowerChar(s[i])
  {
    seq(|s|, i requires 0 <= i < |s| => LowerChar(s[i]))
  }

  /** Lower case, without one trailing dot. */
  function Normalize(s: string): string {
    var l := Lower(s);
    if l != "" && l[|l| - 1] == '.' then l[..|l| - 1] else l
  }

  lemma NormalizeStableIff(s: string)
    ensures Normalize(s) == s <==> Lower(s) == s && (s == "" || s[|s| - 1] != '.')
  {
    if Normalize(s) == s {
      assert |Lower(s)| == |s|;
    }
  }

  lemma LowerIdempotent(s: string)
    ensures Lower(Lower(s)) == Lower(s)
  {
  }

  // ---------------------------------------------------------------- operations

  function BlockDomain(r: Rules, domain: string): Rules {
    var d := Normalize(domain);
    if '*' in d then r.(patterns := r.patterns + [d]) else r.(domains := r.domains + {d})
  }

  /** std::find and erase: the first occurrence goes, if there is one. */
  function RemoveFirst<T(==)>(s: seq<T>, x: T): seq<T> {
    if s == [] then []
    else if s[0] == x then s[1..]
    else [s[0]] + RemoveFirst(s[1..], x)
  }

  lemma {:induction false} FirstIsRemoved<T>(s: seq<T>, i: nat, x: T)
    requires i <= |s| && x !in s[..i] && (i < |s| ==> s[i] == x)
    ensures RemoveFirst(s, x) == if i < |s| then s[..i] + s[i + 1..] else s
  {
    if i > 0 {
      assert s[0] == s[..i][0] && s[1..][..i - 1] == s[..i][1..];
      FirstIsRemoved(s[1..], i - 1, x);
      assert s == [s[0]] + s[1..];
    }
  }

  function UnblockDomain(r: Rules, domain: string): Rules {
    var d := Normalize(domain);
    if '*' in d then r.(patterns := RemoveFirst(r.patterns, d)) else r.(domains := r.domains - {d})
  }

  /** domainMatchesPattern */
  predicate DomainMatchesPattern(domain: string, pattern: string) {
    && |pattern| >= 2 && pattern[0] == '*' && pattern[1] == '.'
    && (EndsWith(domain, pattern[1..]) || domain == pattern[2..])
  }

  /** The test isDomainBlocked applies to an entry of the set of plain domains. */
  predicate StrictlyBelow(host: string, entry: string) {
    |host| > |entry| + 1 && host[|host| - |entry| - 1] == '.' && host[|host| - |entry|..] == entry
  }

  /** The decision of isDomainBlocked. */
  predicate DomainBlocked(r: Rules, domain: string) {
    var h := Normalize(domain);
    && domain != ""
    && (|| h in r.domains
        || (exists d <- r.domains :: StrictlyBelow(h, d))
        || (exists p <- r.patterns :: DomainMatchesPattern(h, Lower(p))))
  }

  datatype BlockReason = ByIp(ip: Word) | ByPort(port: Port) | ByApp(app: AppType) | ByDomain(domain: string)

  /** shouldBlock: the first reason, in the order address, port, application, domain. */
  function ShouldBlock(r: Rules, sourceIp: Word, port: Port, app: AppType, domain: string): Option<BlockReason> {
    if sourceIp in r.ips then Some(ByIp(sourceIp))
    else if port in r.ports then Some(ByPort(port))
    else if app in r.apps then Some(ByApp(app))
    else if DomainBlocked(r, domain) then Some(ByDomain(domain))
    else None
  }

  // ---------------------------------------------------------------- the label-list specification

  /** The labels of apex are a suffix of the labels of host. */
  predicate Under(host: string, apex: string) {
    EndsWith(Split(host, '.'), Split(apex, '.'))
  }

  lemma UnderIsTextual(host: string, apex: string)
    ensures Under(host, apex) <==> host == apex || EndsWith(host, "." + apex)
  {
    assert "." == ['.'];
    PartsSuffix(apex, host, '.');
  }

  lemma StrictlyBelowIsUnder(host: string, entry: string)
    ensures host == entry || StrictlyBelow(host, entry) <==> Under(host, entry) && host != "." + entry
  {
    UnderIsTextual(host, entry);
    var dotted := "." + entry;
    if StrictlyBelow(host, entry) {
      assert host[|host| - |dotted|..] == dotted;
    }
    if EndsWith(host, dotted) && host != dotted {
      assert |host| > |dotted|;
      assert host[|host| - |dotted|] == dotted[0];
      assert host[|host| - |entry|..] == host[|host| - |dotted|..][1..] == dotted[1..];
    }
  }

  lemma PatternIsUnder(host: string, pattern: string)
    ensures DomainMatchesPattern(host, pattern) <==> |pattern| >= 2 && pattern[..2] == "*." && Under(host, pattern[2..])
  {
    if |pattern| >= 2 {
      UnderIsTextual(host, pattern[2..]);
      WildcardShape(pattern);
      hide Under, EndsWith;
    }
  }

  lemma WildcardShape(pattern: string)
    requires |pattern| >= 2
    ensures pattern[..2] == "*." <==> pattern[0] == '*' && pattern[1] == '.'
    ensures pattern[1] == '.' ==> pattern[1..] == "." + pattern[2..]
  {
    assert pattern[..2] == [pattern[0], pattern[1]];
    assert pattern[1..] == [pattern[1]] + pattern[2..];
  }

  /** host is under the apex of a stored rule. */
  ghost predicate UnderSomeRule(r: Rules, h: string) {
    || (exists d <- r.domains :: Under(h, d) && h != "." + d)
    || (exists p <- r.patterns :: |p| >= 2 && Lower(p)[..2] == "*." && Under(h, Lower(p)[2..]))
  }

  /** The decision of isDomainBlocked, on every input and every rule set, in terms of labels. */
  lemma BlockedIffUnderSomeRule(r: Rules, domain: string)
    ensures DomainBlocked(r, domain) <==> domain != "" && UnderSomeRule(r, Normalize(domain))
  {
    var h := Normalize(domain);
    forall d <- r.domains
      ensures h == d || StrictlyBelow(h, d) <==> Under(h, d) && h != "." + d
    {
      StrictlyBelowIsUnder(h, d);
    }
    forall p <- r.patterns
      ensures DomainMatchesPattern(h, Lower(p)) <==> |p| >= 2 && Lower(p)[..2] == "*." && Under(h, Lower(p)[2..])
    {
      PatternIsUnder(h, Lower(p));
    }
  }

  /** host is under the apex of a stored rule, a plain rule's labels being taken as they are. */
  ghost predicate UnderAnyRule(r: Rules, h: string) {
    || (exists d <- r.domains :: Under(h, d))
    || (exists p <- r.patterns :: |p| >= 2 && Lower(p)[..2] == "*." && Under(h, Lower(p)[2..]))
  }

  /**
   Label suffixes alone decide a host, unless it is a dot followed by a plain rule and nothing else blocks it: that
   host has the rule's labels as a suffix and passes.
   */
  lemma LabelsAloneDecide(r: Rules, domain: string)
    requires domain != ""
    ensures var h := Normalize(domain);
            (DomainBlocked(r, domain) <==> UnderAnyRule(r, h))
            <==> UnderSomeRule(r, h) || h == "" || h[0] != '.' || h[1..] !in r.domains
  {
    var h := Normalize(domain);
    BlockedIffUnderSomeRule(r, domain);
    if !DomainBlocked(r, domain) && h != "" && h[0] == '.' && h[1..] in r.domains {
      assert h == "." + h[1..];
      UnderIsTextual(h, h[1..]);
    }
    if !DomainBlocked(r, domain) && UnderAnyRule(r, h) {
      var d :| d in r.domains && Under(h, d);
      assert h == "." + d;
      assert h[1..] == d;
    }
  }

  /** isDomainOrSubdomain, the test behind the application table. */
  predicate IsDomainOrSubdomain(host: string, apex: string) {
    if host == "" || apex == "" then false
    else if host == apex then true
    else if |host| <= |apex| then false
    else host[|host| - |apex| - 1] == '.' && host[|host| - |apex|..] == apex
  }

  lemma IsDomainOrSubdomainIsUnder(host: string, apex: string)
    ensures IsDomainOrSubdomain(host, apex) <==> host != "" && apex != "" && Under(host, apex)
  {
    UnderIsTextual(host, apex);
    var dotted := "." + apex;
    if EndsWith(host, dotted) {
      assert host[|host| - |dotted|] == dotted[0];
      assert host[|host| - |apex|..] == host[|host| - |dotted|..][1..] == dotted[1..];
    }
    if |host| > |apex| && host[|host| - |apex| - 1] == '.' && host[|host| - |apex|..] == apex {
      assert host[|host| - |dotted|..] == dotted;
    }
  }

  /** If a host lies under two apexes, one of them lies under the other. */
  lemma ApexesOfOneHostAreNested(host: string, a: string, b: string)
    requires Under(host, a) && Under(host, b)
    ensures Under(a, b) || Under(b, a)
  {
    var h, x, y := Split(host, '.'), Split(a, '.'), Split(b, '.');
    if |x| <= |y| {
      assert y[|y| - |x|..] == h[|h| - |x|..];
    } else {
      assert x[|x| - |y|..] == h[|h| - |y|..];
    }
  }

  lemma UnderTransitive(a: string, b: string, c: string)
    requires Under(a, b) && Under(b, c)
    ensures Under(a, c)
  {
    var x, y, z := Split(a, '.'), Split(b, '.'), Split(c, '.');
    assert x[|x| - |z|..] == y[|y| - |z|..];
  }

  // ---------------------------------------------------------------- consequences

  /** What lies under a blocked host is blocked too, unless its name starts with a dot. */
  lemma SubdomainsAreBlocked(r: Rules, host: string, sub: string)
    requires DomainBlocked(r, host) && Under(Normalize(sub), Normalize(host))
    requires Normalize(sub) != "" && Normalize(sub)[0] != '.'
    ensures DomainBlocked(r, sub)
  {
    var h, s := Normalize(host), Normalize(sub);
    BlockedIffUnderSomeRule(r, host);
    BlockedIffUnderSomeRule(r, sub);
    assert sub != "";
    hide Under, DomainBlocked, Normalize;
    assert forall d: string :: ("." + d)[0] == '.';
    if d :| d in r.domains && Under(h, d) && h != "." + d {
      UnderTransitive(s, h, d);
    } else {
      var p :| p in r.patterns && |p| >= 2 && Lower(p)[..2] == "*." && Under(h, Lower(p)[2..]);
      UnderTransitive(s, h, Lower(p)[2..]);
    }
  }

  /** Blocking adds exactly the hosts the new rule blocks on its own. */
  lemma BlockAddsOneRule(r: Rules, rule: string, host: string)
    ensures DomainBlocked(BlockDomain(r, rule), host)
            <==> DomainBlocked(r, host) || DomainBlocked(BlockDomain(Empty, rule), host)
  {
    var d := Normalize(rule);
    var h := Normalize(host);
    if '*' in d {
      assert d in BlockDomain(r, rule).patterns;
    }
  }

  /** What one rule decides: by labels, whatever the letter case or a trailing dot of rule and host. */
  lemma OneRuleDecides(rule: string, host: string)
    ensures var d := Normalize(rule);
            var h := Normalize(host);
            DomainBlocked(BlockDomain(Empty, rule), host) <==>
            && host != ""
            && if '*' !in d then Under(h, d) && h != "." + d
               else |d| >= 2 && d[..2] == "*." && Under(h, d[2..])
  {
    BlockedIffUnderSomeRule(BlockDomain(Empty, rule), host);
    var d := Normalize(rule);
    LowerIdempotent(rule);
    assert Lower(d) == d by {
      assert forall i :: 0 <= i < |d| ==> d[i] == Lower(rule)[i];
    }
  }

  /** Rule d and rule "*." + d decide every host alike, except the host "." + d. */
  lemma WildcardAgreesWithPlainRule(d: string, host: string)
    requires d != "" && '*' !in d
    ensures DomainBlocked(BlockDomain(Empty, d), host) == DomainBlocked(BlockDomain(Empty, "*." + d), host)
            <==> Normalize(host) != "." + Normalize(d)
  {
    var n, w := Normalize(d), Normalize("*." + d);
    WildcardNormalizes(d);
    OneRuleDecides(d, host);
    OneRuleDecides("*." + d, host);
    UnderIsTextual(Normalize(host), n);
  }

  lemma WildcardNormalizes(d: string)
    requires d != "" && '*' !in d
    ensures Normalize("*." + d) == "*." + Normalize(d) && '*' !in Normalize(d)
    ensures '*' in Normalize("*." + d) && Normalize("*." + d)[..2] == "*." && Normalize("*." + d)[2..] == Normalize(d)
  {
    assert Lower("*." + d) == "*." + Lower(d);
  }

  /** The empty rule is the exception: "*." loses its dot, and the pattern "*" matches no host. */
  lemma BareWildcardBlocksNothing(host: string)
    ensures !DomainBlocked(BlockDomain(Empty, "*."), host)
    ensures DomainBlocked(BlockDomain(Empty, ""), host) <==>
            Normalize(host) != "." && host != ""
              && (Normalize(host) == "" || Normalize(host)[|Normalize(host)| - 1] == '.')
  {
    assert Normalize("*.") == "*";
    assert Normalize("") == "";
    OneRuleDecides("*.", host);
    OneRuleDecides("", host);
    UnderIsTextual(Normalize(host), "");
    assert "." + "" == ".";
  }

  /** Letter case and one trailing dot of the host do not matter. */
  lemma HostSpellingDoesNotMatter(r: Rules, host: string)
    requires host != "" && host[|host| - 1] != '.'
    ensures DomainBlocked(r, Lower(host)) == DomainBlocked(r, host) == DomainBlocked(r, host + ".")
  {
    LowerIdempotent(host);
    assert Lower(host + ".") == Lower(host) + ".";
    assert Normalize(host + ".") == Lower(host);
  }

  /**
   Unblocking undoes blocking. For a pattern it always does, up to the order of equal patterns; a plain domain is
   back where it was exactly if it was not blocked before.
   */
  lemma UnblockUndoesBlock(r: Rules, rule: string)
    ensures var back := UnblockDomain(BlockDomain(r, rule), rule);
            if '*' in Normalize(rule) then
              && back == r.(patterns := back.patterns) && multiset(back.patterns) == multiset(r.patterns)
              && forall host :: DomainBlocked(back, host) == DomainBlocked(r, host)
            else back == r <==> Normalize(rule) !in r.domains
  {
    var d := Normalize(rule);
    var back := UnblockDomain(BlockDomain(r, rule), rule);
    if '*' in d {
      RemoveFirstRemovesOne(r.patterns + [d], d);
      forall p ensures p in back.patterns <==> p in r.patterns {
        assert p in multiset(back.patterns) <==> p in multiset(r.patterns);
      }
    }
  }

  lemma {:induction false} RemoveFirstRemovesOne<T>(s: seq<T>, x: T)
    requires x in s
    ensures multiset(RemoveFirst(s, x)) == multiset(s) - multiset{x}
  {
    assert s == [s[0]] + s[1..];
    if s[0] != x {
      RemoveFirstRemovesOne(s[1..], x);
    }
  }

  /** The reason given is the first that applies: address, then port, then application, then domain. */
  lemma ReasonGivenIff(r: Rules, sourceIp: Word, port: Port, app: AppType, domain: string)
    ensures var reason := ShouldBlock(r, sourceIp, port, app, domain);
            && (reason == Some(ByIp(sourceIp)) <==> sourceIp in r.ips)
            && (reason == Some(ByPort(port)) <==> sourceIp !in r.ips && port in r.ports)
            && (reason == Some(ByApp(app)) <==> sourceIp !in r.ips && port !in r.ports && app in r.apps)
            && (reason == Some(ByDomain(domain)) <==>
                sourceIp !in r.ips && port !in r.ports && app !in r.apps && DomainBlocked(r, domain))
  {
    hide DomainBlocked;
  }

  // ---------------------------------------------------------------- the rule manager

  class RuleManager {
    var blockedIps: set<Word>
    var blockedApps: set<AppType>
    var blockedDomains: set<string>
    var domainPatterns: seq<string>
    var blockedPorts: set<Port>

    ghost function Contents(): Rules
      reads this
    {
      Rules(blockedIps, blockedApps, blockedDomains, domainPatterns, blockedPorts)
    }

    constructor ()
      ensures Contents() == Empty
    {
      blockedIps, blockedApps, blockedDomains, domainPatterns, blockedPorts := {}, {}, {}, [], {};
    }

    method BlockIp(ip: Word)
      modifies this
      ensures Contents() == old(Contents()).(ips := old(blockedIps) + {ip})
    {
      blockedIps := blockedIps + {ip};
    }

    method UnblockIp(ip: Word)
      modifies this
      ensures Contents() == old(Contents()).(ips := old(blockedIps) - {ip})
    {
      blockedIps := blockedIps - {ip};
    }

    method BlockApp(app: AppType)
      modifies this
      ensures Contents() == old(Contents()).(apps := old(blockedApps) + {app})
    {
      blockedApps := blockedApps + {app};
    }

    method UnblockApp(app: AppType)
      modifies this
      ensures Contents() == old(Contents()).(apps := old(blockedApps) - {app})
    {
      blockedApps := blockedApps - {app};
    }

    method BlockPort(port: Port)
      modifies this
      ensures Contents() == old(Contents()).(ports := old(blockedPorts) + {port})
    {
      blockedPorts := blockedPorts + {port};
    }

    method UnblockPort(port: Port)
      modifies this
      ensures Contents() == old(Contents()).(ports := old(blockedPorts) - {port})
    {
      blockedPorts := blockedPorts - {port};
    }

    method BlockDomainRule(domain: string)
      modifies this
      ensures Contents() == BlockDomain(old(Contents()), domain)
    {
      var normalized := Normalize(domain);
      if '*' in normalized {
        domainPatterns := domainPatterns + [normalized];
      } else {
        blockedDomains := blockedDomains + {normalized};
      }
    }

    method UnblockDomainRule(domain: string)
      modifies this
      ensures Contents() == UnblockDomain(old(Contents()), domain)
    {
      var normalized := Normalize(domain);
      if '*' in normalized {
        var i := 0;
        while i < |domainPatterns| && domainPatterns[i] != normalized
          invariant i <= |domainPatterns| && normalized !in domainPatterns[..i]
        {
          assert domainPatterns[..i + 1] == domainPatterns[..i] + [domainPatterns[i]];
          i := i + 1;
        }
        FirstIsRemoved(domainPatterns, i, normalized);
        if i < |domainPatterns| {
          domainPatterns := domainPatterns[..i] + domainPatterns[i + 1..];
        }
      } else {
        blockedDomains := blockedDomains - {normalized};
      }
    }

    /** isDomainBlocked: the sets are searched in whatever order they are stored. */
    method IsDomainBlocked(domain: string) returns (blocked: bool)
      ensures blocked == DomainBlocked(Contents(), domain)
    {
      if domain == "" { return false; }
      var lower := Normalize(domain);
      if lower in blockedDomains { return true; }
      var rest := blockedDomains;
      while rest != {}
        invariant rest <= blockedDomains
        invariant forall d <- blockedDomains :: d in rest || !StrictlyBelow(lower, d)
        decreases |rest|
      {
        var entry :| entry in rest;
        if |lower| > |entry| + 1 {
          var dotPos := |lower| - |entry| - 1;
          if lower[dotPos] == '.' && lower[dotPos + 1..] == entry { return true; }
        }
        rest := rest - {entry};
      }
      for i := 0 to |domainPatterns|
        invariant forall p <- domainPatterns[..i] :: !DomainMatchesPattern(lower, Lower(p))
      {
        if DomainMatchesPattern(lower, Lower(domainPatterns[i])) { return true; }
        assert domainPatterns[..i + 1] == domainPatterns[..i] + [domainPatterns[i]];
      }
      assert domainPatterns[..|domainPatterns|] == domainPatterns;
      return false;
    }

    method Decide(sourceIp: Word, port: Port, app: AppType, domain: string) returns (reason: Option<BlockReason>)
      ensures reason == ShouldBlock(Contents(), sourceIp, port, app, domain)
    {
      if sourceIp in blockedIps { return Some(ByIp(sourceIp)); }
      if port in blockedPorts { return Some(ByPort(port)); }
      if app in blockedApps { return Some(ByApp(app)); }
      if domain != "" {
        var blocked := IsDomainBlocked(domain);
        if blocked { return Some(ByDomain(domain)); }
      }
      return None;
    }

    method ClearAll()
      modifies this
      ensures Contents() == Empty
    {
      blockedIps, blockedApps, blockedDomains, domainPatterns, blockedPorts := {}, {}, {}, [], {};
    }
  }

  /** A connection passes exactly if no rule of any kind applies to it. */
  lemma AllowedIffNoRuleApplies(r: Rules, sourceIp: Word, port: Port, app: AppType, domain: string)
    ensures ShouldBlock(r, sourceIp, port, app, domain) == None <==>
            && sourceIp !in r.ips && port !in r.ports && app !in r.apps
            && (domain == "" || !UnderSomeRule(r, Normalize(domain)))
  {
    BlockedIffUnderSomeRule(r, domain);
  }
}
