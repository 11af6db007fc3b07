/** Saving the rules to a text file and loading them back. */
module RulePersistence {
  import opened Bytes
  import opened Text
  import opened Numerals
  import opened AppTypes
  import opened Rules
  import Ipv4Text

  /** The iteration orders of the unordered containers at the time of saving. */
  datatype Orders = Orders(ips: seq<Word>, apps: seq<AppType>, domains: seq<string>, ports: seq<Port>)

  /** An iteration order of a set lists its elements, each once. */
  predicate Lists<T(==)>(order: seq<T>, s: set<T>) {
    && (forall x <- order :: x in s)
    && (forall x <- s :: x in order)
    && (forall i, j :: 0 <= i < j < |order| ==> order[i] != order[j])
  }

  predicate OrdersOf(o: Orders, r: Rules) {
    Lists(o.ips, r.ips) && Lists(o.apps, r.apps) && Lists(o.domains, r.domains) && Lists(o.ports, r.ports)
  }

  // ---------------------------------------------------------------- saving

  function Map<T, U>(f: T -> U, s: seq<T>): (r: seq<U>)
    ensures |r| == |s| && forall i :: 0 <= i < |s| ==> r[i] == f(s[i])
  {
    seq(|s|, i requires 0 <= i < |s| => f(s[i]))
  }

  const IPS: string := "[BLOCKED_IPS]"
  const APPS: string := "[BLOCKED_APPS]"
  const DOMAINS: string := "[BLOCKED_DOMAINS]"
  const PORTS: string := "[BLOCKED_PORTS]"

  function IpLines(o: Orders): seq<string> { Map(Ipv4Text.Print, o.ips) }
  function AppLines(o: Orders): seq<string> { Map(Name, o.apps) }
  function DomainLines(r: Rules, o: Orders): seq<string> { o.domains + r.patterns }
  function PortLine(p: Port): string { Numeral(p, 10) }
  function PortLines(o: Orders): seq<string> { Map(PortLine, o.ports) }

  function SavedLines(r: Rules, o: Orders): seq<string> {
    [IPS] + IpLines(o) + (["", APPS] + AppLines(o) + (["", DOMAINS] + DomainLines(r, o) + (["", PORTS] + PortLines(o))))
  }

  /** Each line with its newline. */
  function WithNewlines(lines: seq<string>): string {
    if lines == [] then "" else lines[0] + "\n" + WithNewlines(lines[1..])
  }

  /** saveRules */
  function Save(r: Rules, o: Orders): string {
    WithNewlines(SavedLines(r, o))
  }

  // ---------------------------------------------------------------- loading

  /** std::isspace in the C locale */
  predicate Space(c: char) {
    c == ' ' || 9 <= c as int <= 13
  }

  /** The digits at the start of a text. */
  function LeadingDigits(s: string): (d: string)
    ensures AllDigits(d, 10)
  {
    if s == "" || !Ipv4Text.Decimal(s[0]) then "" else [s[0]] + LeadingDigits(s[1..])
  }

  /** std::stoi: None where it throws. */
  function Stoi(s: string): Option<int> {
    if s != "" && Space(s[0]) then Stoi(s[1..])
    else
      var signed := s != "" && (s[0] == '-' || s[0] == '+');
      var digits := LeadingDigits(if signed then s[1..] else s);
      var magnitude: int := ValueFrom(0, digits, 10);
      var value := if signed && s[0] == '-' then -magnitude else magnitude;
      if digits == "" || value < -0x8000_0000 || value > 0x7fff_ffff then None else Some(value)
  }

  /** How a load ends: at the end of the file, by an exception from std::stoi, or in an address out of range. */
  datatype Ending = Done | Threw | Undefined

  datatype Load = Load(rules: Rules, ending: Ending)

  /** The first application whose name is the line. */
  function NamedApp(line: string, apps: seq<AppType>): Option<AppType> {
    if apps == [] then None else if Name(apps[0]) == line then Some(apps[0]) else NamedApp(line, apps[1..])
  }

  function LoadAddress(r: Rules, line: string): Load {
    match Ipv4Text.Parsed(line)
    case None => Load(r, Undefined)
    case Some(ip) => Load(r.(ips := r.ips + {ip}), Done)
  }

  function LoadApp(r: Rules, line: string): Load {
    match NamedApp(line, All)
    case None => Load(r, Done)
    case Some(app) => Load(r.(apps := r.apps + {app}), Done)
  }

  function LoadPort(r: Rules, line: string): Load {
    match Stoi(line)
    case None => Load(r, Threw)
    case Some(n) => Load(r.(ports := r.ports + {n % 0x1_0000}), Done)
  }

  /** What the current header selects; the header is only ever compared with the four section names. */
  datatype Section = Addresses | Apps | Domains | Ports | Other

  function SectionOf(header: string): Section {
    if header == IPS then Addresses
    else if header == APPS then Apps
    else if header == DOMAINS then Domains
    else if header == PORTS then Ports
    else Other
  }

  /** One content line of a section. */
  function LoadLine(r: Rules, section: Section, line: string): Load {
    match section
    case Addresses => LoadAddress(r, line)
    case Apps => LoadApp(r, line)
    case Domains => Load(BlockDomain(r, line), Done)
    case Ports => LoadPort(r, line)
    case Other => Load(r, Done)
  }

  function LoadLines(r: Rules, section: Section, lines: seq<string>): Load
    decreases |lines|
  {
    if lines == [] then Load(r, Done)
    else if lines[0] == "" then LoadLines(r, section, lines[1..])
    else if lines[0][0] == '[' then LoadLines(r, SectionOf(lines[0]), lines[1..])
    else
      var next := LoadLine(r, section, lines[0]);
      if next.ending == Done then LoadLines(next.rules, section, lines[1..]) else next
  }

  /** loadRules; the empty line after the last newline is skipped like every empty line. */
  function LoadText(r: Rules, text: string): Load {
    LoadLines(r, Other, Split(text, '\n'))
  }

  /** loadRules over the lines std::getline yields, into the manager given. */
  method LoadRules(manager: RuleManager, text: string) returns (ending: Ending)
    modifies manager
    ensures Load(manager.Contents(), ending) == LoadText(old(manager.Contents()), text)
  {
    var lines := Split(text, '\n');
    var section := Other;
    ghost var whole := LoadText(manager.Contents(), text);
    for i := 0 to |lines|
      invariant whole == LoadLines(manager.Contents(), section, lines[i..])
    {
      var line := lines[i];
      assert lines[i..][1..] == lines[i + 1..];
      if line == "" { continue; }
      if line[0] == '[' {
        section := SectionOf(line);
        continue;
      }
      match section {
        case Addresses =>
          var ip := Ipv4Text.ParseIpv4Address(line);
          if ip == None { return Undefined; }
          manager.BlockIp(ip.value);
        case Apps =>
          var app := FindApp(line);
          if app.Some? { manager.BlockApp(app.value); }
        case Domains =>
          manager.BlockDomainRule(line);
        case Ports =>
          var port := Stoi(line);
          if port == None { return Threw; }
          manager.BlockPort(port.value % 0x1_0000);
        case Other =>
      }
    }
    return Done;
  }

  method FindApp(line: string) returns (app: Option<AppType>)
    ensures app == NamedApp(line, All)
  {
    var apps := All;
    for i := 0 to |apps|
      invariant NamedApp(line, apps) == NamedApp(line, apps[i..])
    {
      assert apps[i..][1..] == apps[i + 1..];
      if Name(apps[i]) == line { return Some(apps[i]); }
    }
    return None;
  }

  // ---------------------------------------------------------------- what each line says

  lemma NamesDistinct(a: AppType, b: AppType)
    requires Name(a) == Name(b)
    ensures a == b
  {
    assert |Name(a)| == |Name(b)| && Name(a)[0] == Name(b)[0] && Name(a)[1] == Name(b)[1];
  }

  lemma EveryAppIsListed(a: AppType)
    ensures a in All
  {
    ghost var k := match a
      case Unknown => 0 case Http => 1 case Https => 2 case Dns => 3 case Tls => 4 case Quic => 5 case Google => 6
      case Facebook => 7 case YouTube => 8 case Twitter => 9 case Instagram => 10 case Netflix => 11 case Amazon => 12
      case Microsoft => 13 case Apple => 14 case WhatsApp => 15 case Telegram => 16 case TikTok => 17 case Spotify => 18
      case Zoom => 19 case Discord => 20 case GitHub => 21 case Cloudflare => 22;
    assert All[k] == a;
  }

  lemma {:induction false} NamedIn(a: AppType, apps: seq<AppType>)
    requires a in apps
    ensures NamedApp(Name(a), apps) == Some(a)
  {
    if Name(apps[0]) == Name(a) {
      NamesDistinct(apps[0], a);
    } else {
      NamedIn(a, apps[1..]);
    }
  }

  /** An application is recovered from its name. */
  lemma NameReadsBack(a: AppType)
    ensures NamedApp(Name(a), All) == Some(a)
  {
    EveryAppIsListed(a);
    NamedIn(a, All);
  }

  /** A line that loading takes as content, on one line of the file. */
  predicate Content(line: string) {
    line != "" && line[0] != '[' && '\n' !in line
  }

  lemma NameIsContent(a: AppType)
    ensures Content(Name(a)) && Name(a)[|Name(a)| - 1] != '.'
  {
  }

  lemma {:induction false} LeadingDigitsOfDigits(s: string)
    requires AllDigits(s, 10)
    ensures LeadingDigits(s) == s
  {
    if s != "" {
      LeadingDigitsOfDigits(s[1..]);
      assert s == [s[0]] + s[1..];
    }
  }

  /** A port is recovered from its decimal numeral. */
  lemma PortReadsBack(port: Port)
    ensures Stoi(PortLine(port)) == Some(port) && Content(PortLine(port))
    ensures PortLine(port)[|PortLine(port)| - 1] != '.'
  {
    var s := PortLine(port);
    Ipv4Text.DecimalReadsBack(port);
    ValueOfNumeral(port, 10);
    LeadingDigitsOfDigits(s);
  }

  lemma AddressIsContent(ip: Word)
    ensures Content(Ipv4Text.Print(ip)) && Ipv4Text.Print(ip)[|Ipv4Text.Print(ip)| - 1] != '.'
  {
    hide Ipv4Text.Octet, Numeral;
    var a, b, c, d := Ipv4Text.Octet(ip, 0), Ipv4Text.Octet(ip, 1), Ipv4Text.Octet(ip, 2), Ipv4Text.Octet(ip, 3);
    Ipv4Text.DecimalReadsBack(a);
    Ipv4Text.DecimalReadsBack(b);
    Ipv4Text.DecimalReadsBack(c);
    Ipv4Text.DecimalReadsBack(d);
    ValueOfNumeral(d, 10);
    var parts := Ipv4Text.Octets(ip);
    var s := Ipv4Text.Print(ip);
    assert parts[1..][1..][1..] == [parts[3]] && parts[1..][1..] == [parts[2], parts[3]];
    assert s == parts[0] + ['.'] + Join(parts[1..], '.');
    assert Join(parts[1..], '.') == parts[1] + ['.'] + Join(parts[1..][1..], '.');
    assert Join(parts[1..][1..], '.') == parts[2] + ['.'] + Join(parts[1..][1..][1..], '.');
    assert s[0] == parts[0][0];
    assert s[|s| - 1] == parts[3][|parts[3]| - 1];
  }

  // ---------------------------------------------------------------- loading what was saved

  /** A domain that loading reads back from its line as it is. */
  predicate Storable(d: string) {
    Content(d) && Normalize(d) == d
  }

  predicate Restorable(r: Rules) {
    && (forall d <- r.domains :: Storable(d) && '*' !in d)
    && (forall p <- r.patterns :: Storable(p) && '*' in p)
  }

  function Elements<T>(s: seq<T>): set<T> {
    set x | x in s
  }

  lemma ContentLine(r: Rules, section: Section, line: string, rest: seq<string>)
    requires Content(line) && LoadLine(r, section, line).ending == Done
    ensures LoadLines(r, section, [line] + rest) == LoadLines(LoadLine(r, section, line).rules, section, rest)
  {
    assert ([line] + rest)[1..] == rest;
  }

  lemma AddressStep(r: Rules, ip: Word, rest: seq<string>)
    ensures LoadLines(r, Addresses, [Ipv4Text.Print(ip)] + rest) == LoadLines(r.(ips := r.ips + {ip}), Addresses, rest)
  {
    AddressIsContent(ip);
    Ipv4Text.ParseUndoesPrint(ip);
    hide LoadLines, Ipv4Text.Print, Ipv4Text.Parsed;
    ContentLine(r, Addresses, Ipv4Text.Print(ip), rest);
  }

  lemma AppStep(r: Rules, app: AppType, rest: seq<string>)
    ensures LoadLines(r, Apps, [Name(app)] + rest) == LoadLines(r.(apps := r.apps + {app}), Apps, rest)
  {
    NameIsContent(app);
    NameReadsBack(app);
    hide LoadLines, Name, NamedApp;
    ContentLine(r, Apps, Name(app), rest);
  }

  lemma PortStep(r: Rules, port: Port, rest: seq<string>)
    ensures LoadLines(r, Ports, [PortLine(port)] + rest) == LoadLines(r.(ports := r.ports + {port}), Ports, rest)
  {
    PortReadsBack(port);
    hide LoadLines, PortLine, Stoi, Numeral;
    assert port % 0x1_0000 == port;
    ContentLine(r, Ports, PortLine(port), rest);
  }

  lemma DomainStep(r: Rules, d: string, rest: seq<string>)
    requires Content(d)
    ensures LoadLines(r, Domains, [d] + rest) == LoadLines(BlockDomain(r, d), Domains, rest)
  {
    ContentLine(r, Domains, d, rest);
  }

  lemma {:induction false} LoadAddresses(r: Rules, ips: seq<Word>, rest: seq<string>)
    ensures LoadLines(r, Addresses, Map(Ipv4Text.Print, ips) + rest)
            == LoadLines(r.(ips := r.ips + Elements(ips)), Addresses, rest)
    decreases |ips|
  {
    hide LoadLines, Ipv4Text.Print;
    if ips == [] {
      assert Map(Ipv4Text.Print, ips) + rest == rest && r.ips + Elements(ips) == r.ips;
    } else {
      var more := Map(Ipv4Text.Print, ips[1..]) + rest;
      assert Map(Ipv4Text.Print, ips) + rest == [Ipv4Text.Print(ips[0])] + more;
      AddressStep(r, ips[0], more);
      LoadAddresses(r.(ips := r.ips + {ips[0]}), ips[1..], rest);
      assert r.ips + {ips[0]} + Elements(ips[1..]) == r.ips + Elements(ips);
    }
  }

  lemma {:induction false} LoadApps(r: Rules, apps: seq<AppType>, rest: seq<string>)
    ensures LoadLines(r, Apps, Map(Name, apps) + rest) == LoadLines(r.(apps := r.apps + Elements(apps)), Apps, rest)
    decreases |apps|
  {
    hide LoadLines, Name;
    if apps == [] {
      assert Map(Name, apps) + rest == rest && r.apps + Elements(apps) == r.apps;
    } else {
      var more := Map(Name, apps[1..]) + rest;
      assert Map(Name, apps) + rest == [Name(apps[0])] + more;
      AppStep(r, apps[0], more);
      LoadApps(r.(apps := r.apps + {apps[0]}), apps[1..], rest);
      assert r.apps + {apps[0]} + Elements(apps[1..]) == r.apps + Elements(apps);
    }
  }

  lemma {:induction false} LoadPorts(r: Rules, ports: seq<Port>, rest: seq<string>)
    ensures LoadLines(r, Ports, Map(PortLine, ports) + rest)
            == LoadLines(r.(ports := r.ports + Elements(ports)), Ports, rest)
    decreases |ports|
  {
    hide LoadLines, PortLine;
    if ports == [] {
      assert Map(PortLine, ports) + rest == rest && r.ports + Elements(ports) == r.ports;
    } else {
      var more := Map(PortLine, ports[1..]) + rest;
      assert Map(PortLine, ports) + rest == [PortLine(ports[0])] + more;
      PortStep(r, ports[0], more);
      LoadPorts(r.(ports := r.ports + {ports[0]}), ports[1..], rest);
      assert r.ports + {ports[0]} + Elements(ports[1..]) == r.ports + Elements(ports);
    }
  }

  lemma StorableDomain(r: Rules, d: string)
    requires Storable(d) && '*' !in d
    ensures Content(d) && BlockDomain(r, d) == r.(domains := r.domains + {d})
  {
  }

  lemma StorablePattern(r: Rules, p: string)
    requires Storable(p) && '*' in p
    ensures Content(p) && BlockDomain(r, p) == r.(patterns := r.patterns + [p])
  {
  }

  lemma {:induction false} LoadDomains(r: Rules, domains: seq<string>, rest: seq<string>)
    requires forall d <- domains :: Storable(d) && '*' !in d
    ensures LoadLines(r, Domains, domains + rest)
            == LoadLines(r.(domains := r.domains + Elements(domains)), Domains, rest)
    decreases |domains|
  {
    hide LoadLines, Storable, Content;
    if domains == [] {
      assert domains + rest == rest && r.domains + Elements(domains) == r.domains;
    } else {
      var more := domains[1..] + rest;
      assert domains + rest == [domains[0]] + more;
      StorableDomain(r, domains[0]);
      DomainStep(r, domains[0], more);
      LoadDomains(r.(domains := r.domains + {domains[0]}), domains[1..], rest);
      assert r.domains + {domains[0]} + Elements(domains[1..]) == r.domains + Elements(domains);
    }
  }

  lemma {:induction false} LoadPatterns(r: Rules, patterns: seq<string>, rest: seq<string>)
    requires forall p <- patterns :: Storable(p) && '*' in p
    ensures LoadLines(r, Domains, patterns + rest) == LoadLines(r.(patterns := r.patterns + patterns), Domains, rest)
    decreases |patterns|
  {
    hide LoadLines, Storable, Content;
    if patterns == [] {
      assert patterns + rest == rest && r.patterns + patterns == r.patterns;
    } else {
      var more := patterns[1..] + rest;
      assert patterns + rest == [patterns[0]] + more;
      StorablePattern(r, patterns[0]);
      DomainStep(r, patterns[0], more);
      LoadPatterns(r.(patterns := r.patterns + [patterns[0]]), patterns[1..], rest);
      assert r.patterns + [patterns[0]] + patterns[1..] == r.patterns + patterns;
    }
  }

  // ---------------------------------------------------------------- the file as a whole

  lemma {:induction false} SplitLines(lines: seq<string>)
    requires forall l <- lines :: '\n' !in l
    ensures Split(WithNewlines(lines), '\n') == lines + [""]
  {
    if lines != [] {
      SplitLines(lines[1..]);
      SplitWithout(lines[0], '\n');
      SplitConcat(lines[0], '\n', WithNewlines(lines[1..]));
      assert "\n" == ['\n'];
      assert lines == [lines[0]] + lines[1..];
    }
  }

  lemma NextSection(r: Rules, section: Section, header: string, rest: seq<string>)
    requires header != "" && header[0] == '['
    ensures LoadLines(r, section, ["", header] + rest) == LoadLines(r, SectionOf(header), rest)
  {
    var lines := ["", header] + rest;
    assert lines[1..] == [header] + rest && lines[1..][1..] == rest;
  }

  lemma SectionsDiffer()
    ensures SectionOf(IPS) == Addresses && SectionOf(APPS) == Apps
    ensures SectionOf(DOMAINS) == Domains && SectionOf(PORTS) == Ports
  {
    assert |IPS| == 13 && |APPS| == 14 && |DOMAINS| == 17 && |PORTS| == 15;
  }

  /** The lines from the port, domain, application and address header on, in that order. */
  function PortsOn(o: Orders): seq<string> { Map(PortLine, o.ports) + [""] }
  function DomainsOn(r: Rules, o: Orders): seq<string> { o.domains + (r.patterns + (["", PORTS] + PortsOn(o))) }
  function AppsOn(r: Rules, o: Orders): seq<string> { AppLines(o) + (["", DOMAINS] + DomainsOn(r, o)) }
  function AddressesOn(r: Rules, o: Orders): seq<string> { IpLines(o) + (["", APPS] + AppsOn(r, o)) }

  lemma SavedShape(r: Rules, o: Orders)
    ensures SavedLines(r, o) + [""] == [IPS] + AddressesOn(r, o)
  {
    hide Map;
    var ports := ["", PORTS] + PortLines(o);
    assert ports + [""] == ["", PORTS] + PortsOn(o);
    var domains := ["", DOMAINS] + DomainLines(r, o) + ports;
    assert domains + [""] == ["", DOMAINS] + DomainsOn(r, o);
    var apps := ["", APPS] + AppLines(o) + domains;
    assert apps + [""] == ["", APPS] + AppsOn(r, o);
    assert SavedLines(r, o) == [IPS] + IpLines(o) + apps;
  }

  lemma LoadPortsOn(r: Rules, o: Orders)
    ensures LoadLines(r, Ports, PortsOn(o)) == Load(r.(ports := r.ports + Elements(o.ports)), Done)
  {
    LoadPorts(r, o.ports, [""]);
  }

  lemma LoadDomainsOn(r: Rules, s: Rules, o: Orders)
    requires Lists(o.domains, r.domains) && Restorable(r)
    ensures LoadLines(s, Domains, DomainsOn(r, o))
         == Load(s.(domains := s.domains + Elements(o.domains), patterns := s.patterns + r.patterns,
            ports := s.ports + Elements(o.ports)), Done)
  {
    assert forall d <- o.domains :: Storable(d) && '*' !in d;
    assert forall p <- r.patterns :: Storable(p) && '*' in p;
    SectionsDiffer();
    hide LoadLines, PortsOn, Elements, Storable, SectionOf;
    LoadDomains(s, o.domains, r.patterns + (["", PORTS] + PortsOn(o)));
    var t := s.(domains := s.domains + Elements(o.domains));
    LoadPatterns(t, r.patterns, ["", PORTS] + PortsOn(o));
    var u := t.(patterns := t.patterns + r.patterns);
    NextSection(u, Domains, PORTS, PortsOn(o));
    LoadPortsOn(u, o);
  }

  lemma LoadSaved(r: Rules, o: Orders)
    requires OrdersOf(o, r) && Restorable(r)
    ensures LoadLines(Empty, Other, SavedLines(r, o) + [""]) == Load(r, Done)
  {
    SavedShape(r, o);
    var r1 := Empty.(ips := {} + Elements(o.ips));
    var r2 := r1.(apps := {} + Elements(o.apps));
    assert Elements(o.ips) == r.ips && Elements(o.apps) == r.apps && Elements(o.domains) == r.domains
           && Elements(o.ports) == r.ports;
    assert ([IPS] + AddressesOn(r, o))[1..] == AddressesOn(r, o);
    assert LoadLines(Empty, Other, [IPS] + AddressesOn(r, o)) == LoadLines(Empty, SectionOf(IPS), AddressesOn(r, o));
    SectionsDiffer();
    hide LoadLines, SectionOf, DomainsOn, Elements, Restorable, Map, SavedLines, Lists;
    LoadAddresses(Empty, o.ips, ["", APPS] + AppsOn(r, o));
    NextSection(r1, Addresses, APPS, AppsOn(r, o));
    LoadApps(r1, o.apps, ["", DOMAINS] + DomainsOn(r, o));
    NextSection(r2, Apps, DOMAINS, DomainsOn(r, o));
    LoadDomainsOn(r, r2, o);
  }

  lemma SavedLinesStayWhole(r: Rules, o: Orders)
    requires forall d <- DomainLines(r, o) :: '\n' !in d
    ensures Split(Save(r, o), '\n') == SavedLines(r, o) + [""]
  {
    forall l <- SavedLines(r, o)
      ensures '\n' !in l
    {
      SavedLineKinds(r, o, l);
    }
    SplitLines(SavedLines(r, o));
  }

  /** Every saved line is a header or empty, the text of an address, application or port, or a domain rule. */
  lemma SavedLineKinds(r: Rules, o: Orders, l: string)
    requires l in SavedLines(r, o)
    ensures l in DomainLines(r, o) || ('\n' !in l && (l == "" || l[0] == '[' || l[|l| - 1] != '.'))
  {
    if i :| 0 <= i < |o.ips| && l == Ipv4Text.Print(o.ips[i]) {
      AddressIsContent(o.ips[i]);
    } else if i :| 0 <= i < |o.apps| && l == Name(o.apps[i]) {
      NameIsContent(o.apps[i]);
    } else if i :| 0 <= i < |o.ports| && l == PortLine(o.ports[i]) {
      PortReadsBack(o.ports[i]);
    } else if l !in DomainLines(r, o) {
      assert l in ["", IPS, APPS, DOMAINS, PORTS];
    }
  }

  // ---------------------------------------------------------------- exactly when a save restores

  /** Some content line has this normal form. */
  ghost predicate Origin(lines: seq<string>, d: string) {
    exists l <- lines :: l != "" && l[0] != '[' && Normalize(l) == d
  }

  /** The domain rules of r, filed by kind, all come from content lines or from before. */
  ghost predicate DomainsComeFrom(r: Rules, before: Rules, lines: seq<string>) {
    && (forall d <- r.domains :: d in before.domains || ('*' !in d && Origin(lines, d)))
    && (forall p <- r.patterns :: p in before.patterns || ('*' in p && Origin(lines, p)))
  }

  lemma {:induction false} LoadedDomainsComeFromLines(r: Rules, section: Section, lines: seq<string>)
    ensures DomainsComeFrom(LoadLines(r, section, lines).rules, r, lines)
    decreases |lines|
  {
    if lines != [] {
      var l := lines[0];
      assert forall d :: Origin(lines[1..], d) ==> Origin(lines, d);
      if l == "" {
        LoadedDomainsComeFromLines(r, section, lines[1..]);
      } else if l[0] == '[' {
        LoadedDomainsComeFromLines(r, SectionOf(l), lines[1..]);
      } else {
        var next := LoadLine(r, section, l);
        if section == Domains {
          assert Origin(lines, Normalize(l));
        }
        assert DomainsComeFrom(next.rules, r, lines);
        if next.ending == Done {
          LoadedDomainsComeFromLines(next.rules, section, lines[1..]);
        }
      }
    }
  }

  lemma {:induction false} PartsWithout<T>(s: seq<T>, sep: T)
    ensures forall part <- Split(s, sep) :: sep !in part
  {
    if s != [] {
      PartsWithout(s[1..], sep);
    }
  }

  function Longest(lines: seq<string>): (n: nat)
    ensures forall l <- lines :: |l| <= n
  {
    if lines == [] then 0
    else
      var n := Longest(lines[1..]);
      if |lines[0]| > n then |lines[0]| else n
  }

  /**
   If every domain rule comes from a saved line, none can end in a dot: it would take one longer rule after another.
   */
  lemma {:induction false} NoneEndsInDot(r: Rules, o: Orders, d: string)
    requires forall e <- DomainLines(r, o) :: Origin(SavedLines(r, o), e)
    requires d in DomainLines(r, o)
    ensures d != "" && d[|d| - 1] != '.'
    decreases Longest(DomainLines(r, o)) - |d|
  {
    if d == "" || d[|d| - 1] == '.' {
      var l :| l in SavedLines(r, o) && l != "" && l[0] != '[' && Normalize(l) == d;
      DottedOrigin(l, d);
      SavedLineKinds(r, o, l);
      NoneEndsInDot(r, o, l);
    }
  }

  lemma DottedOrigin(l: string, d: string)
    requires l != "" && Normalize(l) == d && (d == "" || d[|d| - 1] == '.')
    ensures l[|l| - 1] == '.' && |l| == |d| + 1
  {
  }

  lemma NormalFormKeepsContent(l: string)
    requires Content(l) && Normalize(l) != ""
    ensures Content(Normalize(l))
  {
    var d := Normalize(l);
    assert d[0] == LowerChar(l[0]);
    forall i | 0 <= i < |d|
      ensures d[i] != '\n'
    {
      assert d[i] == LowerChar(l[i]) && l[i] in l;
    }
  }

  /** Every line of a text is free of newlines, so what comes from one is storable but for its trailing dot. */
  lemma OriginIsContent(text: string, d: string)
    requires Origin(Split(text, '\n'), d)
    ensures '\n' !in d && (d == "" || Content(d)) && Lower(d) == d
  {
    var l :| l in Split(text, '\n') && l != "" && l[0] != '[' && Normalize(l) == d;
    PartsWithout(text, '\n');
    if d != "" {
      NormalFormKeepsContent(l);
    }
    forall i | 0 <= i < |d|
      ensures Lower(d)[i] == d[i]
    {
      assert d[i] == LowerChar(l[i]);
    }
  }

  lemma RestoredMeansRestorable(r: Rules, o: Orders)
    requires OrdersOf(o, r) && LoadText(Empty, Save(r, o)).rules == r
    ensures Restorable(r)
  {
    var text := Save(r, o);
    LoadedDomainsComeFromLines(Empty, Other, Split(text, '\n'));
    forall d <- DomainLines(r, o)
      ensures Origin(Split(text, '\n'), d) && (if d in o.domains then '*' !in d else '*' in d)
      ensures '\n' !in d && (d == "" || Content(d)) && Lower(d) == d
    {
      OriginIsContent(text, d);
    }
    SavedLinesStayWhole(r, o);
    forall d <- DomainLines(r, o)
      ensures Origin(SavedLines(r, o), d)
    {
    }
    forall d <- DomainLines(r, o)
      ensures Storable(d)
    {
      NoneEndsInDot(r, o, d);
      NormalizeStableIff(d);
    }
  }

  /**
   Saving rules and loading them into an empty manager restores all of them, in any iteration order and with the
   patterns in order and multiplicity, exactly if every domain rule is non-empty, in normal form, on one line, and
   does not begin with '['.
   */
  lemma SaveThenLoadRestores(r: Rules, o: Orders)
    requires OrdersOf(o, r)
    ensures LoadText(Empty, Save(r, o)) == Load(r, Done) <==> Restorable(r)
  {
    if Restorable(r) {
      SavedLinesStayWhole(r, o);
      LoadSaved(r, o);
    }
    if LoadText(Empty, Save(r, o)) == Load(r, Done) {
      RestoredMeansRestorable(r, o);
    }
  }
}
