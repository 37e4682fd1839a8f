/** The input chain that src/bundles/iptables.rs renders from the open ports, read back
    as `iptables-restore` reads it and judged by first match. */
module Iptables {
  import opened HostModel
  import opened RuleText

  type Port = n: nat | n < 0x1_0000

  datatype PortSet = PortSet(tcp: seq<Port>, udp: seq<Port>)
  datatype Ports = Ports(local: PortSet, remote: PortSet)

  /** One option of a rule. `Load` is `-m`: it loads an extension and matches everything. */
  datatype Match =
    | InIface(negated: bool, pattern: string)
    | Source(range: Cidr)
    | Load(extension: string)
    | Proto(proto: string)
    | DPort(port: nat)
    | CtState(states: seq<string>)
    | IcmpType(icmp: string)
    | Icmp6Type(icmp6: string)
    | HopsEqual(hops: nat)

  datatype Target = Accept | Drop

  datatype Rule = Rule(matches: seq<Match>, target: Target)

  datatype Packet = Packet(iface: string, src: nat, proto: string, dport: nat, state: string, icmp: string, hops: nat)

  // ---------- first-match semantics ----------

  /** A pattern that ends in `+` stands for every name it is a prefix of. */
  predicate IfaceMatches(pattern: string, name: string) {
    if pattern != "" && pattern[|pattern| - 1] == '+' then pattern[..|pattern| - 1] <= name else pattern == name
  }

  predicate Matches(m: Match, p: Packet) {
    match m
    case InIface(negated, pattern) => IfaceMatches(pattern, p.iface) != negated
    case Source(range) => CidrFits(range) && InRange(range, p.src)
    case Load(_) => true
    case Proto(proto) => p.proto == proto
    case DPort(port) => p.dport == port
    case CtState(states) => p.state in states
    case IcmpType(icmp) => p.icmp == icmp
    case Icmp6Type(icmp) => p.icmp == icmp
    case HopsEqual(hops) => p.hops == hops
  }

  predicate AllMatch(ms: seq<Match>, p: Packet) { forall k :: 0 <= k < |ms| ==> Matches(ms[k], p) }

  /** The target of the first rule that matches. */
  function Verdict(rules: seq<Rule>, p: Packet): Option<Target> {
    if rules == [] then None
    else if AllMatch(rules[0].matches, p) then Some(rules[0].target)
    else Verdict(rules[1..], p)
  }

  lemma {:induction false} VerdictAppend(a: seq<Rule>, b: seq<Rule>, p: Packet)
    ensures Verdict(a + b, p) == if Verdict(a, p).Some? then Verdict(a, p) else Verdict(b, p)
    decreases |a|
  {
    if a == [] {
      assert a + b == b;
    } else {
      VerdictAppend(a[1..], b, p);
      assert (a + b)[1..] == a[1..] + b;
    }
  }

  // ---------- the text of a rule ----------

  function TargetText(t: Target): string { if t.Accept? then "ACCEPT" else "DROP" }

  function KeyOf(m: Match): string {
    match m
    case InIface(_, _) => "-i"
    case Source(_) => "-s"
    case Load(_) => "-m"
    case Proto(_) => "-p"
    case DPort(_) => "--dport"
    case CtState(_) => "--ctstate"
    case IcmpType(_) => "--icmp-type"
    case Icmp6Type(_) => "--icmpv6-type"
    case HopsEqual(_) => "--hl-eq"
  }

  function ArgOf(m: Match): string {
    match m
    case InIface(_, pattern) => pattern
    case Source(range) => CidrText(range)
    case Load(extension) => extension
    case Proto(proto) => proto
    case DPort(port) => Digits(10, port)
    case CtState(states) => Join(states, ',')
    case IcmpType(icmp) => icmp
    case Icmp6Type(icmp) => icmp
    case HopsEqual(hops) => Digits(10, hops)
  }

  function MatchWords(m: Match): seq<string> {
    (if m.InIface? && m.negated then ["!"] else []) + [KeyOf(m), ArgOf(m)]
  }

  function OptionWords(ms: seq<Match>, t: Target): seq<string> {
    if ms == [] then ["-j", TargetText(t)] else MatchWords(ms[0]) + OptionWords(ms[1..], t)
  }

  function RuleWords(rule: Rule): seq<string> { ["-A", "NF_PERSIST_INPUT"] + OptionWords(rule.matches, rule.target) }

  function Line(rule: Rule): string { Join(RuleWords(rule), ' ') + "\n" }

  function Text(rules: seq<Rule>): string { if rules == [] then "" else Line(rules[0]) + Text(rules[1..]) }

  // ---------- reading it back ----------

  function ParseMatch(key: string, arg: string): Option<Match> {
    if key == "-i" then Some(InIface(false, arg))
    else if key == "-s" then (var r := ParseCidr(arg); if r.Some? then Some(Source(r.value)) else None)
    else if key == "-m" then Some(Load(arg))
    else if key == "-p" then Some(Proto(arg))
    else if key == "--dport" then (var n := Number(10, arg); if n.Some? then Some(DPort(n.value)) else None)
    else if key == "--ctstate" then Some(CtState(Split(arg, ',')))
    else if key == "--icmp-type" then Some(IcmpType(arg))
    else if key == "--icmpv6-type" then Some(Icmp6Type(arg))
    else if key == "--hl-eq" then (var n := Number(10, arg); if n.Some? then Some(HopsEqual(n.value)) else None)
    else None
  }

  function ParseOptions(ws: seq<string>): Option<Rule> {
    if |ws| < 2 then None
    else if ws[0] == "-j" then
      if |ws| == 2 && ws[1] == "ACCEPT" then Some(Rule([], Accept))
      else if |ws| == 2 && ws[1] == "DROP" then Some(Rule([], Drop))
      else None
    else
      var negated := ws[0] == "!";
      if negated && (|ws| < 3 || ws[1] != "-i") then None else
        var m := if negated then Some(InIface(true, ws[2])) else ParseMatch(ws[0], ws[1]);
        var rest := ParseOptions(if negated then ws[3..] else ws[2..]);
        if m.Some? && rest.Some? then Some(Rule([m.value] + rest.value.matches, rest.value.target)) else None
  }

  function ParseLine(line: string): Option<Rule> {
    var ws := Split(line, ' ');
    if |ws| >= 2 && ws[0] == "-A" && ws[1] == "NF_PERSIST_INPUT" then ParseOptions(ws[2..]) else None
  }

  function ParseLines(lines: seq<string>): Option<seq<Rule>> {
    if lines == [] then Some([])
    else if lines[0] == "" then ParseLines(lines[1..])
    else
      var rule, rest := ParseLine(lines[0]), ParseLines(lines[1..]);
      if rule.Some? && rest.Some? then Some([rule.value] + rest.value) else None
  }

  /** Blank lines are skipped. */
  function ParseText(text: string): Option<seq<Rule>> { ParseLines(Split(text, '\n')) }

  predicate Plain(w: string) { ' ' !in w && '\n' !in w }

  predicate PlainMatch(m: Match) {
    match m
    case InIface(_, pattern) => Plain(pattern)
    case Source(range) => CidrFits(range)
    case Load(extension) => Plain(extension)
    case Proto(proto) => Plain(proto)
    case DPort(_) => true
    case CtState(states) => states != [] && forall k :: 0 <= k < |states| ==> Plain(states[k]) && ',' !in states[k]
    case IcmpType(icmp) => Plain(icmp)
    case Icmp6Type(icmp) => Plain(icmp)
    case HopsEqual(_) => true
  }

  predicate PlainRule(rule: Rule) { forall k :: 0 <= k < |rule.matches| ==> PlainMatch(rule.matches[k]) }

  predicate PlainRules(rules: seq<Rule>) { forall k :: 0 <= k < |rules| ==> PlainRule(rules[k]) }

  lemma KeysDiffer()
    ensures "-i"[1] == 'i' && "-s"[1] == 's' && "-m"[1] == 'm' && "-p"[1] == 'p' && "-j"[1] == 'j'
    ensures |"-i"| == |"-s"| == |"-m"| == |"-p"| == |"-j"| == 2 && |"!"| == 1
    ensures |"--dport"| == 7 && |"--ctstate"| == 9 && |"--icmp-type"| == 11 && |"--icmpv6-type"| == 13
    ensures |"--hl-eq"| == 7
    ensures "--dport" != "--hl-eq" && "ACCEPT" != "DROP"
  {
    assert "--dport"[2] == 'd' && "--hl-eq"[2] == 'h';
    assert |"ACCEPT"| == 6 && |"DROP"| == 4;
  }

  lemma MatchRoundTrip(m: Match)
    requires PlainMatch(m) && !(m.InIface? && m.negated)
    ensures KeyOf(m) != "-j" && KeyOf(m) != "!" && ParseMatch(KeyOf(m), ArgOf(m)) == Some(m)
  {
    hide Join, Split, Digits, Number, CidrText, ParseCidr;
    KeysDiffer();
    match m
    case Source(range) => CidrRoundTrip(range);
    case DPort(port) => NumberOfDigits(10, port);
    case CtState(states) => SplitJoin(states, ',');
    case HopsEqual(hops) => NumberOfDigits(10, hops);
    case _ =>
  }

  lemma PlainArg(m: Match)
    requires PlainMatch(m)
    ensures Plain(KeyOf(m)) && Plain(ArgOf(m))
  {
    hide Join, Digits, CidrText;
    PunctuationIsNoDigit();
    match m
    case Source(range) => CidrTextAvoids(range, ' '); CidrTextAvoids(range, '\n');
    case DPort(port) => DigitsAvoid(10, port, ' '); DigitsAvoid(10, port, '\n');
    case CtState(states) => JoinAvoids(states, ',', ' '); JoinAvoids(states, ',', '\n');
    case HopsEqual(hops) => DigitsAvoid(10, hops, ' '); DigitsAvoid(10, hops, '\n');
    case _ =>
  }

  predicate PlainWords(ws: seq<string>) { forall k :: 0 <= k < |ws| ==> Plain(ws[k]) }

  lemma {:induction false} OptionsRoundTrip(ms: seq<Match>, t: Target)
    requires PlainRule(Rule(ms, t))
    ensures PlainWords(OptionWords(ms, t)) && ParseOptions(OptionWords(ms, t)) == Some(Rule(ms, t))
    decreases |ms|
  {
    hide KeyOf, ArgOf, ParseMatch, PlainMatch;
    KeysDiffer();
    if ms != [] {
      var m, ws := ms[0], OptionWords(ms, t);
      assert PlainRule(Rule(ms[1..], t));
      OptionsRoundTrip(ms[1..], t);
      PlainArg(m);
      if m.InIface? && m.negated {
        NegatedWords(m);
        assert ws[3..] == OptionWords(ms[1..], t);
      } else {
        MatchRoundTrip(m);
        assert ws[2..] == OptionWords(ms[1..], t);
      }
      assert ms == [m] + ms[1..];
    }
  }

  lemma NegatedWords(m: Match)
    requires m.InIface? && m.negated
    ensures MatchWords(m) == ["!", "-i", m.pattern] && "!" != "-j"
  {
  }

  lemma LineRoundTrip(rule: Rule)
    requires PlainRule(rule)
    ensures var line := Join(RuleWords(rule), ' '); line != "" && '\n' !in line && ParseLine(line) == Some(rule)
  {
    hide Join, Split, ParseOptions, OptionWords, PlainRule;
    OptionsRoundTrip(rule.matches, rule.target);
    var ws := RuleWords(rule);
    assert PlainWords(ws) by { assert Plain("-A") && Plain("NF_PERSIST_INPUT"); }
    SplitJoin(ws, ' ');
    JoinAvoids(ws, ' ', '\n');
    assert ws[2..] == OptionWords(rule.matches, rule.target);
    SplitEmpty(' ');
  }

  lemma SplitEmpty(sep: char)
    ensures Split("", sep) == [""]
  {
  }

  /** What is rendered is read back, rule by rule and in order. */
  lemma {:induction false} TextRoundTrip(rules: seq<Rule>)
    requires PlainRules(rules)
    ensures ParseText(Text(rules)) == Some(rules)
  {
    TextThen(rules, "");
    assert Text(rules) + "" == Text(rules);
    assert rules + [] == rules;
  }

  lemma {:induction false} TextThen(rules: seq<Rule>, rest: string)
    requires PlainRules(rules) && ParseText(rest).Some?
    ensures ParseText(Text(rules) + rest) == Some(rules + ParseText(rest).value)
    decreases |rules|
  {
    hide RuleWords, Join, Split, ParseLine;
    if rules == [] {
      assert Text(rules) + rest == rest;
      assert rules + ParseText(rest).value == ParseText(rest).value;
    } else {
      var line, more := Join(RuleWords(rules[0]), ' '), Text(rules[1..]) + rest;
      assert PlainRule(rules[0]) && PlainRules(rules[1..]);
      LineRoundTrip(rules[0]);
      TextThen(rules[1..], rest);
      SplitFirst(line, more, '\n');
      assert Text(rules) + rest == line + ['\n'] + more;
      assert ([line] + Split(more, '\n'))[1..] == Split(more, '\n');
      assert [rules[0]] + (rules[1..] + ParseText(rest).value) == rules + ParseText(rest).value;
    }
  }

  // ---------- the rules of the bundle ----------

  const LAN_192 := V4(192, 168, 0, 0, 16)
  const LAN_172 := V4(172, 16, 0, 0, 12)
  const LAN_10 := V4(10, 0, 0, 0, 8)
  const UNIQUE_LOCAL := V6(0xfd00, 0, 8)
  const LINK_LOCAL := V6(0xfe80, 0, 10)
  const LOCAL_V4 := [LAN_192, LAN_172, LAN_10]
  const LOCAL_V6 := [UNIQUE_LOCAL, LINK_LOCAL]

  function OpenTo(proto: string, sources: seq<Match>, port: nat): Rule {
    Rule([Load(proto), Proto(proto)] + sources + [DPort(port)], Accept)
  }

  /** The lines for one local port: one for each range. */
  function LocalRules(proto: string, ranges: seq<Cidr>, port: nat): (r: seq<Rule>)
    ensures |r| == |ranges| && forall k :: 0 <= k < |r| ==> r[k] == OpenTo(proto, [Source(ranges[k])], port)
  {
    if ranges == [] then [] else [OpenTo(proto, [Source(ranges[0])], port)] + LocalRules(proto, ranges[1..], port)
  }

  function AllLocal(proto: string, ranges: seq<Cidr>, ports: seq<Port>): seq<Rule> {
    if ports == [] then [] else AllLocal(proto, ranges, ports[..|ports| - 1])
                                + LocalRules(proto, ranges, ports[|ports| - 1])
  }

  function AllRemote(proto: string, ports: seq<Port>): seq<Rule> {
    if ports == [] then [] else AllRemote(proto, ports[..|ports| - 1]) + [OpenTo(proto, [], ports[|ports| - 1])]
  }

  function OnIface(pattern: string): Rule { Rule([InIface(false, pattern)], Accept) }

  function ConnectionRules(): seq<Rule> {
    [Rule([Load("conntrack"), CtState(["INVALID"])], Drop),
     Rule([Load("conntrack"), CtState(["ESTABLISHED", "RELATED"])], Accept)]
  }

  function IfaceRules(): seq<Rule> {
    [OnIface("docker+"), OnIface("lxcbr+"), OnIface("virbr+"), OnIface("br-+"), Rule([], Drop)]
  }

  function LoopbackRules(range: Cidr): seq<Rule> {
    [Rule([InIface(true, "lo"), Source(range)], Drop), OnIface("lo")]
  }

  function Icmp6Rule(kind: string, near: bool): Rule {
    Rule([Proto("icmpv6"), Icmp6Type(kind)] + (if near then [Load("hl"), HopsEqual(255)] else []), Accept)
  }

  const FAR_ICMP6 := ["destination-unreachable", "packet-too-big", "time-exceeded", "parameter-problem",
                      "echo-request", "echo-reply"]
  const NEAR_ICMP6 := ["router-advertisement", "neighbor-solicitation", "neighbor-advertisement", "redirect"]

  function Icmp6Rules(kinds: seq<string>, near: bool): seq<Rule> {
    if kinds == [] then [] else [Icmp6Rule(kinds[0], near)] + Icmp6Rules(kinds[1..], near)
  }

  function HeadV4(): seq<Rule> { LoopbackRules(V4(127, 0, 0, 0, 8)) + ConnectionRules() }

  function TailV4(): seq<Rule> { [Rule([Proto("icmp"), IcmpType("8")], Accept)] + IfaceRules() }

  function HeadV6(): seq<Rule> {
    LoopbackRules(V6(0, 1, 128)) + Icmp6Rules(FAR_ICMP6, false) + Icmp6Rules(NEAR_ICMP6, true) + ConnectionRules()
  }

  function PortRules(ports: Ports, ranges: seq<Cidr>): seq<Rule> {
    AllRemote("tcp", ports.remote.tcp) + AllLocal("tcp", ranges, ports.local.tcp)
      + AllRemote("udp", ports.remote.udp) + AllLocal("udp", ranges, ports.local.udp)
  }

  function InputV4(ports: Ports): seq<Rule> { HeadV4() + PortRules(ports, LOCAL_V4) + TailV4() }

  function InputV6(ports: Ports): seq<Rule> { HeadV6() + PortRules(ports, LOCAL_V6) + IfaceRules() }

  lemma {:induction false} TextAppend(a: seq<Rule>, b: seq<Rule>)
    ensures Text(a + b) == Text(a) + Text(b)
    decreases |a|
  {
    hide Line;
    if a == [] {
      assert a + b == b;
    } else {
      TextAppend(a[1..], b);
      assert (a + b)[0] == a[0] && (a + b)[1..] == a[1..] + b;
    }
  }

  // ---------- the text of the rules ----------

  function MatchText(m: Match): string {
    (if m.InIface? && m.negated then "! " else "") + KeyOf(m) + " " + ArgOf(m) + " "
  }

  function MatchesText(ms: seq<Match>): string {
    if ms == [] then "" else MatchText(ms[0]) + MatchesText(ms[1..])
  }

  lemma WordThen(word: string, rest: seq<string>)
    requires rest != []
    ensures Join([word] + rest, ' ') == word + " " + Join(rest, ' ')
  {
    assert ([word] + rest)[1..] == rest;
  }

  lemma {:induction false} OptionsText(ms: seq<Match>, t: Target)
    ensures OptionWords(ms, t) != []
    ensures Join(OptionWords(ms, t), ' ') == MatchesText(ms) + "-j " + TargetText(t)
    decreases |ms|
  {
    hide Join, MatchText, MatchWords;
    if ms == [] {
      WordThen("-j", [TargetText(t)]);
      JoinOne(TargetText(t), ' ');
      assert ["-j", TargetText(t)] == ["-j"] + [TargetText(t)] && "-j" + " " == "-j ";
    } else {
      OptionsText(ms[1..], t);
      MatchThen(ms[0], OptionWords(ms[1..], t));
    }
  }

  lemma MatchThen(m: Match, rest: seq<string>)
    requires rest != []
    ensures Join(MatchWords(m) + rest, ' ') == MatchText(m) + Join(rest, ' ')
  {
    hide Join, KeyOf, ArgOf;
    WordThen(ArgOf(m), rest);
    WordThen(KeyOf(m), [ArgOf(m)] + rest);
    assert [KeyOf(m), ArgOf(m)] + rest == [KeyOf(m)] + ([ArgOf(m)] + rest);
    if m.InIface? && m.negated {
      WordThen("!", [KeyOf(m), ArgOf(m)] + rest);
      assert MatchWords(m) + rest == ["!"] + ([KeyOf(m), ArgOf(m)] + rest);
    } else {
      assert MatchWords(m) + rest == [KeyOf(m), ArgOf(m)] + rest;
    }
  }

  /** A line that appends a rule to the input chain. */
  function InputLine(options: string): string { "-A NF_PERSIST_INPUT " + options + "\n" }

  lemma LineText(rule: Rule)
    ensures Line(rule) == InputLine(MatchesText(rule.matches) + "-j " + TargetText(rule.target))
  {
    hide Join, MatchesText, OptionWords;
    var options := OptionWords(rule.matches, rule.target);
    OptionsText(rule.matches, rule.target);
    WordThen("NF_PERSIST_INPUT", options);
    WordThen("-A", ["NF_PERSIST_INPUT"] + options);
    assert RuleWords(rule) == ["-A"] + (["NF_PERSIST_INPUT"] + options);
    assert "-A" + " " + "NF_PERSIST_INPUT" + " " == "-A NF_PERSIST_INPUT ";
  }

  /** The line for a port, from a source if one is given. */
  function PortText(proto: string, source: string, port: nat): string {
    InputLine("-m " + proto + " " + ("-p " + proto + " " + (source + ("--dport " + Digits(10, port) + " ")))
              + "-j ACCEPT")
  }

  lemma NoMatches()
    ensures MatchesText([]) == ""
  {
  }

  lemma FirstMatch(m: Match, ms: seq<Match>)
    ensures MatchesText([m] + ms) == MatchText(m) + MatchesText(ms)
  {
    assert ([m] + ms)[1..] == ms;
  }

  lemma WordsOfPort(proto: string, range: Cidr, port: nat)
    ensures MatchText(Load(proto)) == "-m " + proto + " " && MatchText(Proto(proto)) == "-p " + proto + " "
    ensures MatchText(Source(range)) == "-s " + CidrText(range) + " "
    ensures MatchText(DPort(port)) == "--dport " + Digits(10, port) + " "
  {
    hide Digits, CidrText;
    assert "-m" + " " == "-m " && "-p" + " " == "-p " && "-s" + " " == "-s " && "--dport" + " " == "--dport ";
  }

  lemma PortMatches(proto: string, range: Option<Cidr>, port: nat)
    ensures MatchesText(OpenTo(proto, SourceOf(range), port).matches)
         == MatchText(Load(proto)) + (MatchText(Proto(proto)) + ((if range.Some? then MatchText(Source(range.value))
                                                                  else "") + MatchText(DPort(port))))
  {
    hide MatchText, MatchesText;
    var tail := SourceOf(range) + [DPort(port)];
    assert OpenTo(proto, SourceOf(range), port).matches == [Load(proto)] + ([Proto(proto)] + tail);
    FirstMatch(Load(proto), [Proto(proto)] + tail);
    FirstMatch(Proto(proto), tail);
    FirstMatch(DPort(port), []);
    NoMatches();
    assert [DPort(port)] == [DPort(port)] + [];
    if range.Some? {
      assert tail == [Source(range.value)] + [DPort(port)];
      FirstMatch(Source(range.value), [DPort(port)]);
    } else {
      assert tail == [DPort(port)];
    }
  }

  /** The line for `proto`, an optional source and `port`, as the source writes it. */
  lemma PortLine(proto: string, range: Option<Cidr>, port: nat)
    ensures Line(OpenTo(proto, SourceOf(range), port))
         == PortText(proto, if range.Some? then "-s " + CidrText(range.value) + " " else "", port)
  {
    hide Digits, CidrText, MatchesText, MatchText, Line;
    PortMatches(proto, range, port);
    LineText(OpenTo(proto, SourceOf(range), port));
    WordsOfPort(proto, if range.Some? then range.value else LAN_10, port);
    AcceptText();
  }

  lemma AcceptText()
    ensures "-j " + TargetText(Accept) == "-j ACCEPT" && "-j " + TargetText(Drop) == "-j DROP"
  {
  }

  // ---------- rendering ----------

  /** Two matches at most, as text. */
  lemma FewMatches(a: Match, b: Match)
    ensures MatchesText([a]) == MatchText(a) && MatchesText([a, b]) == MatchText(a) + MatchText(b)
  {
    hide MatchText;
    FirstMatch(b, []);
    FirstMatch(a, [b]);
    FirstMatch(a, []);
    NoMatches();
    assert [a] == [a] + [] && [b] == [b] + [] && [a, b] == [a] + [b];
  }

  lemma IfaceLine(pattern: string)
    ensures Line(OnIface(pattern)) == InputLine("-i " + pattern + " -j ACCEPT")
  {
    hide MatchesText, Line;
    LineText(OnIface(pattern));
    FewMatches(InIface(false, pattern), InIface(false, pattern));
    assert "-i" + " " == "-i " && " " + "-j " + "ACCEPT" == " -j ACCEPT";
  }

  lemma LinesOf(a: Rule, b: Rule, rest: seq<Rule>)
    ensures Text([a]) == Line(a) && Text([a, b] + rest) == Line(a) + (Line(b) + Text(rest))
  {
    hide Line;
    assert ([a, b] + rest)[1..] == [b] + rest && ([b] + rest)[1..] == rest;
  }

  lemma Glue(a: string, b: string, c: string, d: string, e: string)
    ensures a + (b + c + d) + e == a + b + c + (d + e)
  {
  }

  lemma LoopbackWords(range: Cidr)
    ensures MatchText(InIface(true, "lo")) == "! -i lo " && MatchText(Source(range)) == "-s " + CidrText(range) + " "
    ensures "-i " + "lo" + " -j ACCEPT" == "-i lo -j ACCEPT" && "! -i lo " + "-s " == "! -i lo -s "
    ensures " " + ("-j " + TargetText(Drop)) == " -j DROP"
  {
    hide CidrText;
    assert "-s" + " " == "-s ";
  }

  /** The text of the rules against loopback addresses from outside. */
  lemma LoopbackText(range: Cidr)
    ensures Text(LoopbackRules(range))
         == InputLine("! -i lo -s " + CidrText(range) + " -j DROP") + InputLine("-i lo -j ACCEPT")
  {
    hide MatchesText, MatchText, Line, CidrText, InputLine;
    var a, b := InIface(true, "lo"), Source(range);
    LinesOf(Rule([a, b], Drop), OnIface("lo"), []);
    LineText(Rule([a, b], Drop));
    FewMatches(a, b);
    IfaceLine("lo");
    LoopbackWords(range);
    Glue("! -i lo ", "-s ", CidrText(range), " ", "-j " + TargetText(Drop));
    assert MatchesText([a, b]) + "-j " + TargetText(Drop) == MatchesText([a, b]) + ("-j " + TargetText(Drop));
    assert [Rule([a, b], Drop), OnIface("lo")] + [] == LoopbackRules(range);
    assert Line(OnIface("lo")) + "" == Line(OnIface("lo"));
  }

  lemma TwoMatchLine(a: Match, b: Match, t: Target)
    ensures Line(Rule([a, b], t)) == InputLine(MatchText(a) + MatchText(b) + "-j " + TargetText(t))
  {
    hide MatchesText, MatchText, Line, InputLine;
    LineText(Rule([a, b], t));
    FewMatches(a, b);
  }

  lemma ConntrackWord()
    ensures MatchText(Load("conntrack")) == "-m conntrack "
  {
    assert "-m" + " " == "-m ";
  }

  lemma StateWord(states: seq<string>)
    ensures MatchText(CtState(states)) == "--ctstate " + Join(states, ',') + " "
  {
    hide Join;
    assert "--ctstate" + " " == "--ctstate ";
  }

  lemma TwoStates()
    ensures Join(["INVALID"], ',') == "INVALID" && Join(["ESTABLISHED", "RELATED"], ',') == "ESTABLISHED,RELATED"
  {
    hide Join;
    JoinOne("INVALID", ',');
    JoinCons("ESTABLISHED", ["RELATED"], ',');
    JoinOne("RELATED", ',');
    assert ["ESTABLISHED", "RELATED"] == ["ESTABLISHED"] + ["RELATED"];
  }

  lemma ConnectionWords()
    ensures MatchText(Load("conntrack")) == "-m conntrack " && MatchText(CtState(["INVALID"])) == "--ctstate INVALID "
    ensures MatchText(CtState(["ESTABLISHED", "RELATED"])) == "--ctstate ESTABLISHED,RELATED "
  {
    hide Join, MatchText;
    ConntrackWord();
    StateWord(["INVALID"]);
    StateWord(["ESTABLISHED", "RELATED"]);
    TwoStates();
    assert "--ctstate " + "INVALID" + " " == "--ctstate INVALID ";
    assert "--ctstate " + "ESTABLISHED,RELATED" + " " == "--ctstate ESTABLISHED,RELATED ";
  }

  lemma InvalidLine()
    ensures "-m conntrack " + "--ctstate INVALID " + "-j " + "DROP" == "-m conntrack --ctstate INVALID -j DROP"
  {
  }

  lemma EstablishedLine()
    ensures "-m conntrack " + "--ctstate ESTABLISHED,RELATED " + "-j " + "ACCEPT"
         == "-m conntrack --ctstate ESTABLISHED,RELATED -j ACCEPT"
  {
  }

  lemma ConnectionText()
    ensures Text(ConnectionRules())
         == InputLine("-m conntrack --ctstate INVALID -j DROP")
          + InputLine("-m conntrack --ctstate ESTABLISHED,RELATED -j ACCEPT")
  {
    hide MatchText, Line, InputLine;
    ConnectionWords();
    InvalidLine();
    EstablishedLine();
    TwoMatchLine(Load("conntrack"), CtState(["INVALID"]), Drop);
    TwoMatchLine(Load("conntrack"), CtState(["ESTABLISHED", "RELATED"]), Accept);
    TwoLines(ConnectionRules()[0], ConnectionRules()[1]);
  }

  lemma TwoLines(a: Rule, b: Rule)
    ensures Text([a, b]) == Line(a) + Line(b)
  {
    hide Line;
    LinesOf(a, b, []);
    assert [a, b] + [] == [a, b] && Line(b) + "" == Line(b);
  }

  lemma EchoWords()
    ensures MatchText(Proto("icmp")) == "-p icmp " && MatchText(IcmpType("8")) == "--icmp-type 8 "
  {
  }

  lemma EchoLine()
    ensures "-p icmp " + "--icmp-type 8 " + "-j " + "ACCEPT" == "-p icmp --icmp-type 8 -j ACCEPT"
  {
  }

  lemma EchoText()
    ensures Line(Rule([Proto("icmp"), IcmpType("8")], Accept)) == InputLine("-p icmp --icmp-type 8 -j ACCEPT")
  {
    hide Line, InputLine, MatchText;
    TwoMatchLine(Proto("icmp"), IcmpType("8"), Accept);
    EchoWords();
    EchoLine();
  }

  lemma IfaceWords()
    ensures "-i " + "docker+" + " -j ACCEPT" == "-i docker+ -j ACCEPT"
    ensures "-i " + "lxcbr+" + " -j ACCEPT" == "-i lxcbr+ -j ACCEPT"
    ensures "-i " + "virbr+" + " -j ACCEPT" == "-i virbr+ -j ACCEPT"
    ensures "-i " + "br-+" + " -j ACCEPT" == "-i br-+ -j ACCEPT"
  {
  }

  lemma DropLine()
    ensures Line(Rule([], Drop)) == InputLine("-j DROP")
  {
    hide Line;
    LineText(Rule([], Drop));
    assert "" + "-j " + "DROP" == "-j DROP";
  }

  lemma IfacesText()
    ensures Text(IfaceRules())
         == InputLine("-i docker+ -j ACCEPT") + InputLine("-i lxcbr+ -j ACCEPT") + InputLine("-i virbr+ -j ACCEPT")
          + InputLine("-i br-+ -j ACCEPT") + InputLine("-j DROP")
  {
    hide Line, InputLine;
    IfaceLine("docker+");
    IfaceLine("lxcbr+");
    IfaceLine("virbr+");
    IfaceLine("br-+");
    IfaceWords();
    DropLine();
    var rules := IfaceRules();
    LinesOf(rules[0], rules[1], rules[2..]);
    LinesOf(rules[2], rules[3], [rules[4]]);
    LinesOf(rules[4], rules[4], []);
    assert rules == [rules[0], rules[1]] + rules[2..] && rules[2..] == [rules[2], rules[3]] + [rules[4]];
  }

  /** The line for an ICMPv6 type, with what else it asks for. */
  function Icmp6Text(kind: string, more: string): string {
    InputLine("-p icmpv6 --icmpv6-type " + kind + more + " -j ACCEPT")
  }

  lemma Icmp6Words(kind: string)
    ensures MatchText(Proto("icmpv6")) == "-p icmpv6 "
    ensures MatchText(Icmp6Type(kind)) == "--icmpv6-type " + kind + " "
    ensures MatchText(Load("hl")) == "-m hl " && MatchText(HopsEqual(255)) == "--hl-eq 255 "
  {
    assert "-p" + " " + "icmpv6" + " " == "-p icmpv6 " && "--icmpv6-type" + " " == "--icmpv6-type ";
    assert Digits(10, 255) == "255";
    assert "-m" + " " + "hl" + " " == "-m hl " && "--hl-eq" + " " + "255" + " " == "--hl-eq 255 ";
  }

  lemma Icmp6Matches(kind: string, near: bool)
    ensures MatchesText(Icmp6Rule(kind, near).matches)
         == "-p icmpv6 " + ("--icmpv6-type " + kind + " ") + if near then "-m hl " + "--hl-eq 255 " else ""
  {
    hide MatchText, MatchesText;
    var a, b, more := Proto("icmpv6"), Icmp6Type(kind), if near then [Load("hl"), HopsEqual(255)] else [];
    Icmp6Words(kind);
    FewMatches(Load("hl"), HopsEqual(255));
    NoMatches();
    FirstMatch(b, more);
    FirstMatch(a, [b] + more);
    assert Icmp6Rule(kind, near).matches == [a] + ([b] + more);
  }

  lemma Icmp6End(near: bool)
    ensures " " + (if near then "-m hl " + "--hl-eq 255 " else "") + "-j ACCEPT"
         == (if near then " -m hl --hl-eq 255" else "") + " -j ACCEPT"
  {
  }

  lemma Icmp6Start()
    ensures "-p icmpv6 " + "--icmpv6-type " == "-p icmpv6 --icmpv6-type "
  {
  }

  lemma Regroup(a: string, b: string, kind: string, c: string, d: string, e: string, f: string)
    requires a + b == f
    ensures a + (b + kind + c) + d + e == f + kind + (c + d + e)
  {
  }

  lemma Icmp6Line(kind: string, near: bool)
    ensures Line(Icmp6Rule(kind, near)) == Icmp6Text(kind, if near then " -m hl --hl-eq 255" else "")
  {
    hide MatchesText, Line, InputLine;
    Icmp6Matches(kind, near);
    LineText(Icmp6Rule(kind, near));
    AcceptText();
    Icmp6Start();
    Icmp6End(near);
    var more := if near then "-m hl " + "--hl-eq 255 " else "";
    Regroup("-p icmpv6 ", "--icmpv6-type ", kind, " ", more, "-j ACCEPT", "-p icmpv6 --icmpv6-type ");
    RegroupEnd("-p icmpv6 --icmpv6-type " + kind, if near then " -m hl --hl-eq 255" else "", " -j ACCEPT");
    assert "-j " + TargetText(Icmp6Rule(kind, near).target) == "-j ACCEPT";
    RegroupEnd(MatchesText(Icmp6Rule(kind, near).matches), "-j ", "ACCEPT");
  }

  lemma RegroupEnd(a: string, b: string, c: string)
    ensures a + (b + c) == a + b + c
  {
  }

  lemma KindLines(kind: string, kinds: seq<string>, near: bool)
    ensures Text(Icmp6Rules([kind] + kinds, near)) == Line(Icmp6Rule(kind, near)) + Text(Icmp6Rules(kinds, near))
    ensures Text(Icmp6Rules([], near)) == ""
  {
    hide Line, Icmp6Rule;
    assert ([kind] + kinds)[1..] == kinds;
    assert ([Icmp6Rule(kind, near)] + Icmp6Rules(kinds, near))[1..] == Icmp6Rules(kinds, near);
  }

  /** So the text of the rules for these types, the first two of them spelt out. */
  lemma TwoKinds(a: string, b: string, kinds: seq<string>, near: bool)
    ensures Text(Icmp6Rules([a, b] + kinds, near))
         == Icmp6Text(a, if near then " -m hl --hl-eq 255" else "")
          + (Icmp6Text(b, if near then " -m hl --hl-eq 255" else "") + Text(Icmp6Rules(kinds, near)))
    ensures Text(Icmp6Rules([], near)) == ""
  {
    hide Line, Icmp6Text, Icmp6Rule, Text;
    Icmp6Line(a, near);
    Icmp6Line(b, near);
    KindLines(b, kinds, near);
    KindLines(a, [b] + kinds, near);
    assert [a] + ([b] + kinds) == [a, b] + kinds;
  }

  lemma FarText()
    ensures Text(Icmp6Rules(FAR_ICMP6, false))
         == Icmp6Text("destination-unreachable", "") + Icmp6Text("packet-too-big", "")
          + Icmp6Text("time-exceeded", "") + Icmp6Text("parameter-problem", "")
          + Icmp6Text("echo-request", "") + Icmp6Text("echo-reply", "")
  {
    hide Icmp6Text, Icmp6Rules, Text;
    var kinds := FAR_ICMP6;
    TwoKinds(kinds[0], kinds[1], kinds[2..], false);
    TwoKinds(kinds[2], kinds[3], kinds[4..], false);
    TwoKinds(kinds[4], kinds[5], [], false);
    assert kinds == [kinds[0], kinds[1]] + kinds[2..] && kinds[2..] == [kinds[2], kinds[3]] + kinds[4..];
    assert kinds[4..] == [kinds[4], kinds[5]] + [];
  }

  lemma NearText()
    ensures Text(Icmp6Rules(NEAR_ICMP6, true))
         == Icmp6Text("router-advertisement", " -m hl --hl-eq 255")
          + Icmp6Text("neighbor-solicitation", " -m hl --hl-eq 255")
          + Icmp6Text("neighbor-advertisement", " -m hl --hl-eq 255") + Icmp6Text("redirect", " -m hl --hl-eq 255")
  {
    hide Icmp6Text, Icmp6Rules, Text;
    var kinds := NEAR_ICMP6;
    TwoKinds(kinds[0], kinds[1], kinds[2..], true);
    TwoKinds(kinds[2], kinds[3], [], true);
    assert kinds == [kinds[0], kinds[1]] + kinds[2..] && kinds[2..] == [kinds[2], kinds[3]] + [];
  }

  method RenderRemote(proto: string, ports: seq<Port>) returns (text: string)
    ensures text == Text(AllRemote(proto, ports))
  {
    hide Line, OpenTo, PortText;
    text := "";
    for i := 0 to |ports|
      invariant text == Text(AllRemote(proto, ports[..i]))
    {
      assert ports[..i + 1][..i] == ports[..i];
      var rule := OpenTo(proto, [], ports[i]);
      TextAppend(AllRemote(proto, ports[..i]), [rule]);
      LinesOf(rule, rule, []);
      PortLine(proto, None, ports[i]);
      text := text + PortText(proto, "", ports[i]);
    }
    assert ports[..|ports|] == ports;
  }

  lemma LocalLine(proto: string, range: Cidr, port: nat)
    ensures Line(OpenTo(proto, [Source(range)], port)) == PortText(proto, "-s " + CidrText(range) + " ", port)
  {
    hide Line, OpenTo, PortText, CidrText;
    PortLine(proto, Some(range), port);
  }

  lemma LocalSources()
    ensures "-s " + CidrText(LAN_192) + " " == "-s 192.168.0.0/16 "
    ensures "-s " + CidrText(LAN_172) + " " == "-s 172.16.0.0/12 "
    ensures "-s " + CidrText(LAN_10) + " " == "-s 10.0.0.0/8 "
    ensures "-s " + CidrText(UNIQUE_LOCAL) + " " == "-s fd00::/8 "
    ensures "-s " + CidrText(LINK_LOCAL) + " " == "-s fe80::/10 "
  {
    hide CidrText;
    RangeTexts();
  }

  lemma LocalTextV4(proto: string, port: nat)
    ensures Text(LocalRules(proto, LOCAL_V4, port))
         == PortText(proto, "-s 192.168.0.0/16 ", port) + PortText(proto, "-s 172.16.0.0/12 ", port)
          + PortText(proto, "-s 10.0.0.0/8 ", port)
  {
    hide Line, OpenTo, PortText, CidrText;
    LocalSources();
    LocalLine(proto, LAN_192, port);
    LocalLine(proto, LAN_172, port);
    LocalLine(proto, LAN_10, port);
    var rules := LocalRules(proto, LOCAL_V4, port);
    LinesOf(rules[0], rules[1], [rules[2]]);
    LinesOf(rules[2], rules[2], []);
    assert rules == [rules[0], rules[1]] + [rules[2]];
  }

  lemma LocalTextV6(proto: string, port: nat)
    ensures Text(LocalRules(proto, LOCAL_V6, port))
         == PortText(proto, "-s fd00::/8 ", port) + PortText(proto, "-s fe80::/10 ", port)
  {
    hide Line, OpenTo, PortText, CidrText;
    LocalSources();
    LocalLine(proto, UNIQUE_LOCAL, port);
    LocalLine(proto, LINK_LOCAL, port);
    var rules := LocalRules(proto, LOCAL_V6, port);
    TwoLines(rules[0], rules[1]);
    assert rules == [rules[0], rules[1]];
  }

  method RenderLocalV4(proto: string, ports: seq<Port>) returns (text: string)
    ensures text == Text(AllLocal(proto, LOCAL_V4, ports))
  {
    hide Text, LocalRules, PortText;
    text := "";
    NoText();
    for i := 0 to |ports|
      invariant text == Text(AllLocal(proto, LOCAL_V4, ports[..i]))
    {
      assert ports[..i + 1][..i] == ports[..i];
      TextAppend(AllLocal(proto, LOCAL_V4, ports[..i]), LocalRules(proto, LOCAL_V4, ports[i]));
      LocalTextV4(proto, ports[i]);
      text := text + (PortText(proto, "-s 192.168.0.0/16 ", ports[i]) + PortText(proto, "-s 172.16.0.0/12 ", ports[i])
                      + PortText(proto, "-s 10.0.0.0/8 ", ports[i]));
    }
    assert ports[..|ports|] == ports;
  }

  lemma NoText()
    ensures Text([]) == ""
  {
  }

  method RenderLocalV6(proto: string, ports: seq<Port>) returns (text: string)
    ensures text == Text(AllLocal(proto, LOCAL_V6, ports))
  {
    hide Text, LocalRules, PortText;
    text := "";
    NoText();
    for i := 0 to |ports|
      invariant text == Text(AllLocal(proto, LOCAL_V6, ports[..i]))
    {
      assert ports[..i + 1][..i] == ports[..i];
      TextAppend(AllLocal(proto, LOCAL_V6, ports[..i]), LocalRules(proto, LOCAL_V6, ports[i]));
      LocalTextV6(proto, ports[i]);
      text := text + (PortText(proto, "-s fd00::/8 ", ports[i]) + PortText(proto, "-s fe80::/10 ", ports[i]));
    }
    assert ports[..|ports|] == ports;
  }

  lemma HeadTextV4()
    ensures Text(HeadV4())
         == InputLine("! -i lo -s 127.0.0.0/8 -j DROP") + InputLine("-i lo -j ACCEPT")
          + InputLine("-m conntrack --ctstate INVALID -j DROP")
          + InputLine("-m conntrack --ctstate ESTABLISHED,RELATED -j ACCEPT")
  {
    hide Text, InputLine, CidrText, LoopbackRules, ConnectionRules;
    LoopbackText(V4(127, 0, 0, 0, 8));
    LoopbackSources();
    ConnectionText();
    TextAppend(LoopbackRules(V4(127, 0, 0, 0, 8)), ConnectionRules());
  }

  lemma LoopbackSources()
    ensures "! -i lo -s " + CidrText(V4(127, 0, 0, 0, 8)) + " -j DROP" == "! -i lo -s 127.0.0.0/8 -j DROP"
    ensures "! -i lo -s " + CidrText(V6(0, 1, 128)) + " -j DROP" == "! -i lo -s ::1/128 -j DROP"
  {
    hide CidrText;
    RangeTexts();
  }

  lemma TailTextV4()
    ensures Text(TailV4())
         == InputLine("-p icmp --icmp-type 8 -j ACCEPT")
          + (InputLine("-i docker+ -j ACCEPT") + InputLine("-i lxcbr+ -j ACCEPT") + InputLine("-i virbr+ -j ACCEPT")
             + InputLine("-i br-+ -j ACCEPT") + InputLine("-j DROP"))
  {
    hide Text, InputLine, Line, IfaceRules;
    var echo := Rule([Proto("icmp"), IcmpType("8")], Accept);
    EchoText();
    IfacesText();
    TextAppend([echo], IfaceRules());
    LinesOf(echo, echo, []);
  }

  lemma HeadTextV6()
    ensures Text(HeadV6())
         == InputLine("! -i lo -s ::1/128 -j DROP") + InputLine("-i lo -j ACCEPT")
          + (Icmp6Text("destination-unreachable", "") + Icmp6Text("packet-too-big", "")
             + Icmp6Text("time-exceeded", "") + Icmp6Text("parameter-problem", "")
             + Icmp6Text("echo-request", "") + Icmp6Text("echo-reply", ""))
          + (Icmp6Text("router-advertisement", " -m hl --hl-eq 255")
             + Icmp6Text("neighbor-solicitation", " -m hl --hl-eq 255")
             + Icmp6Text("neighbor-advertisement", " -m hl --hl-eq 255") + Icmp6Text("redirect", " -m hl --hl-eq 255"))
          + (InputLine("-m conntrack --ctstate INVALID -j DROP")
             + InputLine("-m conntrack --ctstate ESTABLISHED,RELATED -j ACCEPT"))
  {
    hide Text, InputLine, Icmp6Text, CidrText, LoopbackRules, ConnectionRules, Icmp6Rules;
    var a, b, c := LoopbackRules(V6(0, 1, 128)), Icmp6Rules(FAR_ICMP6, false), Icmp6Rules(NEAR_ICMP6, true);
    LoopbackText(V6(0, 1, 128));
    LoopbackSources();
    FarText();
    NearText();
    ConnectionText();
    TextAppend(a, b);
    TextAppend(a + b, c);
    TextAppend(a + b + c, ConnectionRules());
  }

  method RenderInputV4(ports: Ports) returns (text: string)
    ensures text == Text(InputV4(ports))
  {
    hide Text, HeadV4, TailV4, AllRemote, AllLocal, InputLine;
    var remoteTcp := RenderRemote("tcp", ports.remote.tcp);
    var localTcp := RenderLocalV4("tcp", ports.local.tcp);
    var remoteUdp := RenderRemote("udp", ports.remote.udp);
    var localUdp := RenderLocalV4("udp", ports.local.udp);
    var head := InputLine("! -i lo -s 127.0.0.0/8 -j DROP") + InputLine("-i lo -j ACCEPT")
                + InputLine("-m conntrack --ctstate INVALID -j DROP")
                + InputLine("-m conntrack --ctstate ESTABLISHED,RELATED -j ACCEPT");
    var tail := InputLine("-p icmp --icmp-type 8 -j ACCEPT")
                + (InputLine("-i docker+ -j ACCEPT") + InputLine("-i lxcbr+ -j ACCEPT")
                   + InputLine("-i virbr+ -j ACCEPT") + InputLine("-i br-+ -j ACCEPT") + InputLine("-j DROP"));
    text := head + (remoteTcp + localTcp + remoteUdp + localUdp) + tail;
    HeadTextV4();
    TailTextV4();
    PortsTextAppend(ports, LOCAL_V4);
    TextAppend(HeadV4(), PortRules(ports, LOCAL_V4));
    TextAppend(HeadV4() + PortRules(ports, LOCAL_V4), TailV4());
  }

  lemma PortsTextAppend(ports: Ports, ranges: seq<Cidr>)
    ensures Text(PortRules(ports, ranges))
         == Text(AllRemote("tcp", ports.remote.tcp)) + Text(AllLocal("tcp", ranges, ports.local.tcp))
          + Text(AllRemote("udp", ports.remote.udp)) + Text(AllLocal("udp", ranges, ports.local.udp))
  {
    hide Text, AllRemote, AllLocal;
    var a, b := AllRemote("tcp", ports.remote.tcp), AllLocal("tcp", ranges, ports.local.tcp);
    var c, d := AllRemote("udp", ports.remote.udp), AllLocal("udp", ranges, ports.local.udp);
    TextAppend(a, b);
    TextAppend(a + b, c);
    TextAppend(a + b + c, d);
  }

  /** In the v6 chain a blank line follows the port rules. */
  method RenderInputV6(ports: Ports) returns (text: string)
    ensures text == Text(HeadV6() + PortRules(ports, LOCAL_V6)) + "\n" + Text(IfaceRules())
  {
    hide Text, HeadV6, IfaceRules, AllRemote, AllLocal, InputLine, Icmp6Text;
    var remoteTcp := RenderRemote("tcp", ports.remote.tcp);
    var localTcp := RenderLocalV6("tcp", ports.local.tcp);
    var remoteUdp := RenderRemote("udp", ports.remote.udp);
    var localUdp := RenderLocalV6("udp", ports.local.udp);
    var head := InputLine("! -i lo -s ::1/128 -j DROP") + InputLine("-i lo -j ACCEPT")
                + (Icmp6Text("destination-unreachable", "") + Icmp6Text("packet-too-big", "")
                   + Icmp6Text("time-exceeded", "") + Icmp6Text("parameter-problem", "")
                   + Icmp6Text("echo-request", "") + Icmp6Text("echo-reply", ""))
                + (Icmp6Text("router-advertisement", " -m hl --hl-eq 255")
                   + Icmp6Text("neighbor-solicitation", " -m hl --hl-eq 255")
                   + Icmp6Text("neighbor-advertisement", " -m hl --hl-eq 255")
                   + Icmp6Text("redirect", " -m hl --hl-eq 255"))
                + (InputLine("-m conntrack --ctstate INVALID -j DROP")
                   + InputLine("-m conntrack --ctstate ESTABLISHED,RELATED -j ACCEPT"));
    var tail := InputLine("-i docker+ -j ACCEPT") + InputLine("-i lxcbr+ -j ACCEPT")
                + InputLine("-i virbr+ -j ACCEPT") + InputLine("-i br-+ -j ACCEPT") + InputLine("-j DROP");
    text := head + (remoteTcp + localTcp + remoteUdp + localUdp) + "\n" + tail;
    HeadTextV6();
    IfacesText();
    PortsTextAppend(ports, LOCAL_V6);
    TextAppend(HeadV6(), PortRules(ports, LOCAL_V6));
  }

  // ---------- the rendered text reads back as the chain ----------

  lemma OpenToIsPlain(proto: string, sources: seq<Match>, port: nat)
    requires Plain(proto) && forall k :: 0 <= k < |sources| ==> PlainMatch(sources[k])
    ensures PlainRule(OpenTo(proto, sources, port))
  {
    hide Plain;
  }

  lemma {:induction false} PortRulesArePlain(proto: string, ranges: seq<Cidr>, ports: seq<Port>)
    requires Plain(proto) && forall k :: 0 <= k < |ranges| ==> CidrFits(ranges[k])
    ensures PlainRules(AllRemote(proto, ports)) && PlainRules(AllLocal(proto, ranges, ports))
    decreases |ports|
  {
    hide Plain, PlainRule, OpenTo, CidrFits;
    if ports != [] {
      var port := ports[|ports| - 1];
      PortRulesArePlain(proto, ranges, ports[..|ports| - 1]);
      OpenToIsPlain(proto, [], port);
      forall k | 0 <= k < |ranges| ensures PlainRule(OpenTo(proto, [Source(ranges[k])], port)) {
        OpenToIsPlain(proto, [Source(ranges[k])], port);
      }
    }
  }

  lemma AllPortRulesArePlain(ports: Ports, ranges: seq<Cidr>)
    requires forall k :: 0 <= k < |ranges| ==> CidrFits(ranges[k])
    ensures PlainRules(PortRules(ports, ranges))
  {
    hide AllRemote, AllLocal, PlainRule;
    PortRulesArePlain("tcp", ranges, ports.remote.tcp);
    PortRulesArePlain("tcp", ranges, ports.local.tcp);
    PortRulesArePlain("udp", ranges, ports.remote.udp);
    PortRulesArePlain("udp", ranges, ports.local.udp);
  }

  lemma LoopbackIsPlain(range: Cidr)
    requires CidrFits(range)
    ensures PlainRules(LoopbackRules(range))
  {
    hide CidrFits;
    assert Plain("lo");
  }

  lemma ConnectionWordsArePlain()
    ensures PlainMatch(Load("conntrack")) && PlainMatch(CtState(["INVALID"]))
  {
    assert Plain("conntrack") && Plain("INVALID") && ',' !in "INVALID";
  }

  lemma EstablishedIsPlain()
    ensures PlainMatch(CtState(["ESTABLISHED", "RELATED"]))
  {
    assert Plain("ESTABLISHED") && Plain("RELATED");
    assert ',' !in "ESTABLISHED" && ',' !in "RELATED";
  }

  lemma TwoPlainMatches(a: Match, b: Match, t: Target)
    requires PlainMatch(a) && PlainMatch(b)
    ensures PlainRule(Rule([a, b], t))
  {
    hide PlainMatch;
  }

  lemma ConnectionIsPlain()
    ensures PlainRules(ConnectionRules())
  {
    hide PlainMatch, PlainRule;
    ConnectionWordsArePlain();
    EstablishedIsPlain();
    TwoPlainMatches(Load("conntrack"), CtState(["INVALID"]), Drop);
    TwoPlainMatches(Load("conntrack"), CtState(["ESTABLISHED", "RELATED"]), Accept);
  }

  lemma IfacesArePlain()
    ensures PlainRules(IfaceRules())
  {
    assert Plain("docker+") && Plain("lxcbr+") && Plain("virbr+") && Plain("br-+");
  }

  lemma EchoIsPlain()
    ensures PlainRule(Rule([Proto("icmp"), IcmpType("8")], Accept))
  {
  }

  lemma FixedRulesArePlain()
    ensures PlainRules(LoopbackRules(V4(127, 0, 0, 0, 8))) && PlainRules(LoopbackRules(V6(0, 1, 128)))
    ensures PlainRules(ConnectionRules()) && PlainRules(IfaceRules()) && PlainRules(TailV4())
  {
    hide PlainRule, LoopbackRules, ConnectionRules, IfaceRules;
    LoopbackIsPlain(V4(127, 0, 0, 0, 8));
    LoopbackIsPlain(V6(0, 1, 128));
    ConnectionIsPlain();
    IfacesArePlain();
    EchoIsPlain();
  }

  lemma {:induction false} Icmp6RulesArePlain(kinds: seq<string>, near: bool)
    requires PlainWords(kinds)
    ensures PlainRules(Icmp6Rules(kinds, near))
    decreases |kinds|
  {
    if kinds != [] {
      assert Plain(kinds[0]) && PlainWords(kinds[1..]);
      Icmp6RulesArePlain(kinds[1..], near);
      assert PlainRule(Icmp6Rule(kinds[0], near));
    }
  }

  lemma FarKindsArePlain()
    ensures PlainWords(FAR_ICMP6)
  {
  }

  lemma NearKindsArePlain()
    ensures PlainWords(NEAR_ICMP6)
  {
  }

  lemma HeadV6IsPlain()
    ensures PlainRules(HeadV6())
  {
    hide PlainRule, LoopbackRules, ConnectionRules, Icmp6Rules, PlainWords;
    LoopbackIsPlain(V6(0, 1, 128));
    ConnectionIsPlain();
    FarKindsArePlain();
    NearKindsArePlain();
    Icmp6RulesArePlain(FAR_ICMP6, false);
    Icmp6RulesArePlain(NEAR_ICMP6, true);
  }

  lemma V4ReadsBack(ports: Ports)
    ensures ParseText(Text(InputV4(ports))) == Some(InputV4(ports))
  {
    hide Text, ParseText, PortRules, PlainRule, LoopbackRules, ConnectionRules, IfaceRules, TailV4;
    FixedRulesArePlain();
    AllPortRulesArePlain(ports, LOCAL_V4);
    TextRoundTrip(InputV4(ports));
  }

  lemma V6ReadsBack(ports: Ports)
    ensures ParseText(Text(HeadV6() + PortRules(ports, LOCAL_V6)) + "\n" + Text(IfaceRules())) == Some(InputV6(ports))
  {
    hide Text, ParseText, PortRules, PlainRule, IfaceRules, HeadV6;
    FixedRulesArePlain();
    AllPortRulesArePlain(ports, LOCAL_V6);
    HeadV6IsPlain();
    TextRoundTrip(IfaceRules());
    BlankLine(Text(IfaceRules()));
    var before, rest := HeadV6() + PortRules(ports, LOCAL_V6), "\n" + Text(IfaceRules());
    TextThen(before, rest);
    assert Text(before) + "\n" + Text(IfaceRules()) == Text(before) + rest;
  }

  lemma BlankLine(text: string)
    ensures ParseText("\n" + text) == ParseText(text)
  {
    hide ParseLine;
    SplitFirst("", text, '\n');
    assert "" + ['\n'] + text == "\n" + text;
    assert ([""] + Split(text, '\n'))[1..] == Split(text, '\n');
  }

  // ---------- the policy ----------

  /** The address blocks of section 3 of RFC 1918. */
  predicate PrivateV4(a: nat) {
    0x0a00_0000 <= a <= 0x0aff_ffff || 0xac10_0000 <= a <= 0xac1f_ffff || 0xc0a8_0000 <= a <= 0xc0a8_ffff
  }

  predicate LoopbackV4(a: nat) { 0x7f00_0000 <= a <= 0x7fff_ffff }

  /** fd00::/8 (section 3.1 of RFC 4193, L bit set) and fe80::/10 (section 2.5.6 of RFC 4291). */
  predicate LocalV6(a: nat) {
    || 0xfd00_0000_0000_0000_0000_0000_0000_0000 <= a <= 0xfdff_ffff_ffff_ffff_ffff_ffff_ffff_ffff
    || 0xfe80_0000_0000_0000_0000_0000_0000_0000 <= a <= 0xfebf_ffff_ffff_ffff_ffff_ffff_ffff_ffff
  }

  predicate Bridge(name: string) { "docker" <= name || "lxcbr" <= name || "virbr" <= name || "br-" <= name }

  /** The port is open to everyone, or to local sources and the source is one. */
  predicate PortOpen(ports: Ports, p: Packet, fromLocal: bool) {
    || (p.proto == "tcp" && (p.dport in ports.remote.tcp || (fromLocal && p.dport in ports.local.tcp)))
    || (p.proto == "udp" && (p.dport in ports.remote.udp || (fromLocal && p.dport in ports.local.udp)))
  }

  /** What the bundle is for: `accepted` is decided only for new packets from outside. */
  function Policy(p: Packet, loopback: bool, accepted: bool): Target {
    if p.iface == "lo" then Accept
    else if loopback || p.state == "INVALID" then Drop
    else if p.state == "ESTABLISHED" || p.state == "RELATED" || accepted || Bridge(p.iface) then Accept
    else Drop
  }

  predicate EchoV4(p: Packet) { p.proto == "icmp" && p.icmp == "8" }

  /** ICMPv6 errors and echoes from anywhere, neighbour discovery from the link only. */
  predicate WantedIcmp6(p: Packet) {
    && p.proto == "icmpv6"
    && (|| p.icmp == "destination-unreachable" || p.icmp == "packet-too-big" || p.icmp == "time-exceeded"
        || p.icmp == "parameter-problem" || p.icmp == "echo-request" || p.icmp == "echo-reply"
        || (p.hops == 255
            && (p.icmp == "router-advertisement" || p.icmp == "neighbor-solicitation"
                || p.icmp == "neighbor-advertisement" || p.icmp == "redirect")))
  }

  function PolicyV4(ports: Ports, p: Packet): Target {
    Policy(p, LoopbackV4(p.src), PortOpen(ports, p, PrivateV4(p.src)) || EchoV4(p))
  }

  /** In v6 the wanted ICMP types are accepted whatever their connection state. */
  function PolicyV6(ports: Ports, p: Packet): Target {
    if p.iface != "lo" && p.src != 1 && WantedIcmp6(p) then Accept
    else Policy(p, p.src == 1, PortOpen(ports, p, LocalV6(p.src)))
  }

  // ---------- ranges are intervals ----------

  predicate InAny(ranges: seq<Cidr>, a: nat) { exists k ::
                                                0 <= k < |ranges| && CidrFits(ranges[k]) && InRange(ranges[k], a) }

  lemma EightMore(n: nat)
    ensures PowerOfTwo(n + 8) == 0x100 * PowerOfTwo(n)
    ensures PowerOfTwo(n + 8) == 4 * PowerOfTwo(n + 6) && PowerOfTwo(n + 8) == 0x10 * PowerOfTwo(n + 4)
  {
    assert PowerOfTwo(n + 8) == 2 * PowerOfTwo(n + 7) == 4 * PowerOfTwo(n + 6);
    assert PowerOfTwo(n + 6) == 2 * PowerOfTwo(n + 5) == 4 * PowerOfTwo(n + 4);
    assert PowerOfTwo(n + 4) == 2 * PowerOfTwo(n + 3) == 4 * PowerOfTwo(n + 2);
    assert PowerOfTwo(n + 2) == 2 * PowerOfTwo(n + 1) == 4 * PowerOfTwo(n);
  }

  lemma SixteenMore(n: nat)
    ensures PowerOfTwo(n + 16) == 0x1_0000 * PowerOfTwo(n)
  {
    hide PowerOfTwo;
    EightMore(n);
    EightMore(n + 8);
  }

  lemma ZeroPower()
    ensures PowerOfTwo(0) == 1
  {
  }

  lemma Powers()
    ensures PowerOfTwo(16) == 0x1_0000 && PowerOfTwo(20) == 0x10_0000 && PowerOfTwo(24) == 0x100_0000
    ensures PowerOfTwo(118) == 0x40_0000_0000_0000_0000_0000_0000_0000
    ensures PowerOfTwo(120) == 0x100_0000_0000_0000_0000_0000_0000_0000
  {
    hide PowerOfTwo;
    ZeroPower();
    SixteenMore(0);
    EightMore(16);
    SixteenMore(16);
    SixteenMore(32);
    SixteenMore(48);
    SixteenMore(64);
    SixteenMore(80);
    SixteenMore(96);
    EightMore(112);
  }

  lemma RangesV4(a: nat)
    ensures InAny(LOCAL_V4, a) <==> PrivateV4(a)
  {
    hide InRange, PrivateV4;
    Lans(a);
    assert CidrFits(LOCAL_V4[0]) && CidrFits(LOCAL_V4[1]) && CidrFits(LOCAL_V4[2]);
  }

  lemma Lans(a: nat)
    ensures InRange(LAN_192, a) || InRange(LAN_172, a) || InRange(LAN_10, a) <==> PrivateV4(a)
  {
    hide PowerOfTwo;
    Powers();
    assert InRange(LAN_192, a) <==> a / 0x1_0000 == 0xc0a8;
    assert InRange(LAN_172, a) <==> a / 0x10_0000 == 0xac1;
    assert InRange(LAN_10, a) <==> a / 0x100_0000 == 0x0a;
  }

  lemma Localhost(a: nat)
    ensures InRange(V4(127, 0, 0, 0, 8), a) <==> LoopbackV4(a)
    ensures InRange(V6(0, 1, 128), a) <==> a == 1
  {
    hide PowerOfTwo;
    Powers();
    ZeroPower();
  }

  lemma RangesV6(a: nat)
    ensures InAny(LOCAL_V6, a) <==> LocalV6(a)
  {
    hide PowerOfTwo;
    Powers();
    assert InRange(LOCAL_V6[0], a) <==> a / 0x100_0000_0000_0000_0000_0000_0000_0000 == 0xfd;
    assert InRange(LOCAL_V6[1], a) <==> a / 0x40_0000_0000_0000_0000_0000_0000_0000 == 0x3fa;
  }

  // ---------- the verdict of each part ----------

  lemma OpenToMatches(proto: string, sources: seq<Match>, port: nat, p: Packet)
    requires |sources| <= 1
    ensures OpenTo(proto, sources, port).target == Accept
    ensures AllMatch(OpenTo(proto, sources, port).matches, p)
        <==> p.proto == proto && p.dport == port && (sources == [] || Matches(sources[0], p))
  {
    hide Matches;
    var ms := OpenTo(proto, sources, port).matches;
    LoadAndProto(proto, port, p);
    assert ms[0] == Load(proto) && ms[1] == Proto(proto) && ms[2 + |sources|] == DPort(port);
    assert sources != [] ==> ms[2] == sources[0];
  }

  lemma LoadAndProto(proto: string, port: nat, p: Packet)
    ensures Matches(Load(proto), p) && (Matches(Proto(proto), p) <==> p.proto == proto)
    ensures (Matches(DPort(port), p) <==> p.dport == port)
  {
  }

  lemma {:induction false} VerdictRemote(proto: string, ports: seq<Port>, p: Packet)
    ensures Verdict(AllRemote(proto, ports), p) == if p.proto == proto && p.dport in ports then Some(Accept) else None
    decreases |ports|
  {
    hide AllMatch, OpenTo;
    if ports != [] {
      var port := ports[|ports| - 1];
      VerdictRemote(proto, ports[..|ports| - 1], p);
      OpenToMatches(proto, [], port, p);
      VerdictAppend(AllRemote(proto, ports[..|ports| - 1]), [OpenTo(proto, [], port)], p);
      assert ports == ports[..|ports| - 1] + [port];
    }
  }

  lemma {:induction false} VerdictOnePort(proto: string, ranges: seq<Cidr>, port: nat, p: Packet)
    ensures Verdict(LocalRules(proto, ranges, port), p)
         == if p.proto == proto && p.dport == port && InAny(ranges, p.src) then Some(Accept) else None
    decreases |ranges|
  {
    hide AllMatch, OpenTo, CidrFits, InRange;
    if ranges != [] {
      VerdictOnePort(proto, ranges[1..], port, p);
      OpenToMatches(proto, [Source(ranges[0])], port, p);
      AnyOfTheRest(ranges, p.src);
      assert LocalRules(proto, ranges, port)[1..] == LocalRules(proto, ranges[1..], port);
    }
  }

  lemma AnyOfTheRest(ranges: seq<Cidr>, a: nat)
    requires ranges != []
    ensures InAny(ranges, a) <==> (CidrFits(ranges[0]) && InRange(ranges[0], a)) || InAny(ranges[1..], a)
  {
    hide CidrFits, InRange;
    if InAny(ranges, a) {
      var k :| 0 <= k < |ranges| && CidrFits(ranges[k]) && InRange(ranges[k], a);
      if k > 0 { assert ranges[1..][k - 1] == ranges[k]; }
    }
  }

  lemma {:induction false} VerdictLocal(proto: string, ranges: seq<Cidr>, ports: seq<Port>, p: Packet)
    ensures Verdict(AllLocal(proto, ranges, ports), p)
         == if p.proto == proto && p.dport in ports && InAny(ranges, p.src) then Some(Accept) else None
    decreases |ports|
  {
    hide AllMatch, OpenTo, InAny, LocalRules;
    if ports != [] {
      var port := ports[|ports| - 1];
      VerdictLocal(proto, ranges, ports[..|ports| - 1], p);
      VerdictOnePort(proto, ranges, port, p);
      VerdictAppend(AllLocal(proto, ranges, ports[..|ports| - 1]), LocalRules(proto, ranges, port), p);
      assert ports == ports[..|ports| - 1] + [port];
    }
  }

  lemma TcpIsNotUdp()
    ensures "tcp" != "udp"
  {
    assert "tcp"[0] != "udp"[0];
  }

  lemma VerdictPorts(ports: Ports, ranges: seq<Cidr>, p: Packet)
    ensures Verdict(PortRules(ports, ranges), p) == if PortOpen(ports, p, InAny(ranges, p.src)) then Some(Accept)
                                                    else None
  {
    hide Verdict, AllRemote, AllLocal, InAny;
    var a, b := AllRemote("tcp", ports.remote.tcp), AllLocal("tcp", ranges, ports.local.tcp);
    var c, d := AllRemote("udp", ports.remote.udp), AllLocal("udp", ranges, ports.local.udp);
    VerdictRemote("tcp", ports.remote.tcp, p);
    VerdictLocal("tcp", ranges, ports.local.tcp, p);
    VerdictRemote("udp", ports.remote.udp, p);
    VerdictLocal("udp", ranges, ports.local.udp, p);
    VerdictAppend(a, b, p);
    VerdictAppend(a + b, c, p);
    VerdictAppend(a + b + c, d, p);
    TcpIsNotUdp();
  }

  lemma {:induction false} VerdictTwo(ms: seq<Match>, t: Target, rest: seq<Rule>, p: Packet)
    requires |ms| == 2
    ensures Verdict([Rule(ms, t)] + rest, p) == if Matches(ms[0], p) && Matches(ms[1], p) then Some(t)
                                                else Verdict(rest, p)
  {
    hide Matches;
    assert ([Rule(ms, t)] + rest)[1..] == rest;
  }

  lemma VerdictOne(ms: seq<Match>, t: Target, rest: seq<Rule>, p: Packet)
    requires |ms| <= 1
    ensures Verdict([Rule(ms, t)] + rest, p) == if ms == [] || Matches(ms[0], p) then Some(t) else Verdict(rest, p)
  {
    hide Matches;
    assert ([Rule(ms, t)] + rest)[1..] == rest;
  }

  lemma VerdictLoopback(range: Cidr, p: Packet)
    requires CidrFits(range)
    ensures Verdict(LoopbackRules(range), p)
         == if p.iface == "lo" then Some(Accept) else if InRange(range, p.src) then Some(Drop) else None
  {
    hide Verdict, InRange, CidrFits;
    var rules := LoopbackRules(range);
    VerdictTwo(rules[0].matches, Drop, [rules[1]], p);
    VerdictOne(rules[1].matches, Accept, [], p);
    NoRules(p);
    assert rules == [rules[0]] + [rules[1]] && [rules[1]] == [rules[1]] + [];
  }

  lemma NoRules(p: Packet)
    ensures Verdict([], p) == None
  {
  }

  lemma VerdictConnection(p: Packet)
    ensures Verdict(ConnectionRules(), p)
         == if p.state == "INVALID" then Some(Drop)
            else if p.state == "ESTABLISHED" || p.state == "RELATED" then Some(Accept) else None
  {
    hide Verdict;
    var rules := ConnectionRules();
    VerdictTwo(rules[0].matches, Drop, [rules[1]], p);
    VerdictTwo(rules[1].matches, Accept, [], p);
    NoRules(p);
    assert rules == [rules[0]] + [rules[1]] && [rules[1]] == [rules[1]] + [];
  }

  lemma VerdictIfaces(p: Packet)
    ensures Verdict(IfaceRules(), p) == Some(if Bridge(p.iface) then Accept else Drop)
  {
    hide Verdict, IfaceMatches;
    var rules := IfaceRules();
    assert rules == [rules[0]] + rules[1..] && rules[1..] == [rules[1]] + rules[2..];
    assert rules[2..] == [rules[2]] + rules[3..] && rules[3..] == [rules[3]] + [rules[4]]
           && [rules[4]] == [rules[4]] + [];
    VerdictOne(rules[0].matches, Accept, rules[1..], p);
    VerdictOne(rules[1].matches, Accept, rules[2..], p);
    VerdictOne(rules[2].matches, Accept, rules[3..], p);
    VerdictOne(rules[3].matches, Accept, [rules[4]], p);
    VerdictOne(rules[4].matches, Drop, [], p);
    Wildcards(p.iface);
  }

  lemma Wildcards(name: string)
    ensures IfaceMatches("docker+", name) <==> "docker" <= name
    ensures IfaceMatches("lxcbr+", name) <==> "lxcbr" <= name
    ensures IfaceMatches("virbr+", name) <==> "virbr" <= name
    ensures IfaceMatches("br-+", name) <==> "br-" <= name
  {
    assert "docker+"[..6] == "docker" && "lxcbr+"[..5] == "lxcbr" && "virbr+"[..5] == "virbr" && "br-+"[..3] == "br-";
  }

  /** First match over the v4 chain, as read back from the text, is the policy, for
      every packet and all port lists. */
  lemma V4ChainIsPolicy(ports: Ports, p: Packet)
    ensures Verdict(InputV4(ports), p) == Some(PolicyV4(ports, p))
  {
    hide Verdict, LoopbackRules, ConnectionRules, IfaceRules, PortRules, PortOpen, InAny, InRange, PrivateV4,
         LoopbackV4, Bridge;
    var local, head := V4(127, 0, 0, 0, 8), HeadV4();
    var echo := [Rule([Proto("icmp"), IcmpType("8")], Accept)];
    VerdictLoopback(local, p);
    VerdictConnection(p);
    VerdictAppend(LoopbackRules(local), ConnectionRules(), p);
    VerdictPorts(ports, LOCAL_V4, p);
    RangesV4(p.src);
    Localhost(p.src);
    VerdictTwo(echo[0].matches, Accept, IfaceRules(), p);
    VerdictIfaces(p);
    VerdictAppend(head, PortRules(ports, LOCAL_V4), p);
    VerdictAppend(head + PortRules(ports, LOCAL_V4), TailV4(), p);
  }

  lemma {:induction false} VerdictIcmp6(kinds: seq<string>, near: bool, p: Packet)
    ensures Verdict(Icmp6Rules(kinds, near), p)
         == if p.proto == "icmpv6" && p.icmp in kinds && (near ==> p.hops == 255) then Some(Accept) else None
    decreases |kinds|
  {
    if kinds != [] {
      VerdictIcmp6(kinds[1..], near, p);
      Icmp6RuleMatches(kinds[0], near, p);
    }
  }

  lemma Icmp6RuleMatches(kind: string, near: bool, p: Packet)
    ensures AllMatch(Icmp6Rule(kind, near).matches, p) <==>
            p.proto == "icmpv6" && p.icmp == kind && (near ==> p.hops == 255)
  {
    var ms := Icmp6Rule(kind, near).matches;
    assert ms[0] == Proto("icmpv6") && ms[1] == Icmp6Type(kind);
    assert near ==> ms[2] == Load("hl") && ms[3] == HopsEqual(255);
  }

  /** The rules name the types that are wanted. */
  lemma WantedKinds(icmp: string)
    ensures icmp in FAR_ICMP6 <==>
            || icmp == "destination-unreachable" || icmp == "packet-too-big" || icmp == "time-exceeded"
            || icmp == "parameter-problem" || icmp == "echo-request" || icmp == "echo-reply"
    ensures icmp in NEAR_ICMP6 <==>
            || icmp == "router-advertisement" || icmp == "neighbor-solicitation"
            || icmp == "neighbor-advertisement" || icmp == "redirect"
  {
  }

  lemma V6ChainIsPolicy(ports: Ports, p: Packet)
    ensures Verdict(InputV6(ports), p) == Some(PolicyV6(ports, p))
  {
    hide Verdict, LoopbackRules, ConnectionRules, Icmp6Rules, IfaceRules, PortRules, PortOpen, InAny, InRange, LocalV6,
         Bridge;
    var local := V6(0, 1, 128);
    var far, near := Icmp6Rules(FAR_ICMP6, false), Icmp6Rules(NEAR_ICMP6, true);
    VerdictLoopback(local, p);
    WantedKinds(p.icmp);
    VerdictIcmp6(FAR_ICMP6, false, p);
    VerdictIcmp6(NEAR_ICMP6, true, p);
    VerdictConnection(p);
    VerdictAppend(LoopbackRules(local), far, p);
    VerdictAppend(LoopbackRules(local) + far, near, p);
    VerdictAppend(LoopbackRules(local) + far + near, ConnectionRules(), p);
    VerdictPorts(ports, LOCAL_V6, p);
    RangesV6(p.src);
    Localhost(p.src);
    VerdictIfaces(p);
    VerdictAppend(HeadV6(), PortRules(ports, LOCAL_V6), p);
    VerdictAppend(HeadV6() + PortRules(ports, LOCAL_V6), IfaceRules(), p);
  }

  // ---------- what the rendered text means ----------

  function V4Text(ports: Ports): string { Text(InputV4(ports)) }

  function V6Text(ports: Ports): string { Text(HeadV6() + PortRules(ports, LOCAL_V6)) + "\n" + Text(IfaceRules()) }

  /** What first match over the rules in a text decides, if the text can be read. */
  function Decision(text: string, p: Packet): Option<Target> {
    var rules := ParseText(text);
    if rules.Some? then Verdict(rules.value, p) else None
  }

  /** For all port lists and every packet, the rendered text decides as the policy says. */
  lemma FirewallIsPolicy(ports: Ports, p: Packet)
    ensures Decision(V4Text(ports), p) == Some(PolicyV4(ports, p))
    ensures Decision(V6Text(ports), p) == Some(PolicyV6(ports, p))
  {
    hide ParseText, Text, Verdict, InputV4, InputV6, PolicyV4, PolicyV6, IfaceRules, HeadV6, PortRules;
    V4ReadsBack(ports);
    V6ReadsBack(ports);
    V4ChainIsPolicy(ports, p);
    V6ChainIsPolicy(ports, p);
  }

  /** A new TCP or UDP packet on an interface that no rule names. */
  predicate Fresh(p: Packet) {
    && (p.proto == "tcp" || p.proto == "udp")
    && p.state !in ["INVALID", "ESTABLISHED", "RELATED"]
    && p.iface != "lo" && !Bridge(p.iface)
  }

  /** A port is reachable exactly if it is listed: remote ports from everywhere, local
      ports from the private ranges. */
  lemma ListedPortsAreOpen(ports: Ports, p: Packet)
    requires Fresh(p)
    ensures !LoopbackV4(p.src) ==> (Decision(V4Text(ports), p) == Some(Accept) <==>
                                    PortOpen(ports, p, PrivateV4(p.src)))
    ensures p.src != 1 ==> (Decision(V6Text(ports), p) == Some(Accept) <==> PortOpen(ports, p, LocalV6(p.src)))
  {
    hide Decision, V4Text, V6Text, Bridge, PortOpen;
    FirewallIsPolicy(ports, p);
    assert p.proto != "icmp" && p.proto != "icmpv6" by {
      assert "tcp"[0] == 't' && "udp"[0] == 'u' && "icmp"[0] == 'i' && "icmpv6"[0] == 'i';
    }
    assert p.state != "INVALID" && p.state != "ESTABLISHED" && p.state != "RELATED";
  }

  ghost predicate SamePorts(a: PortSet, b: PortSet) {
    (forall n: nat :: n in a.tcp <==> n in b.tcp) && (forall n: nat :: n in a.udp <==> n in b.udp)
  }

  /** Reordering or repeating ports changes no verdict. */
  lemma OrderOfPortsIsIrrelevant(a: Ports, b: Ports, p: Packet)
    requires SamePorts(a.local, b.local) && SamePorts(a.remote, b.remote)
    ensures Decision(V4Text(a), p) == Decision(V4Text(b), p) && Decision(V6Text(a), p) == Decision(V6Text(b), p)
  {
    hide Decision, V4Text, V6Text, Policy, PrivateV4, LocalV6, LoopbackV4;
    FirewallIsPolicy(a, p);
    FirewallIsPolicy(b, p);
    if 0 <= p.dport < 0x1_0000 { assert SamePorts(a.local, b.local) && SamePorts(a.remote, b.remote); }
  }

  // ---------- the port lists can be read off the rules ----------

  predicate IsOpenTo(rule: Rule, proto: string, sources: seq<Match>) {
    && rule.matches != [] && rule.matches[|rule.matches| - 1].DPort?
    && rule == OpenTo(proto, sources, rule.matches[|rule.matches| - 1].port)
  }

  /** The ports that the rules open for `proto` from `sources`, in the order of the rules. */
  function OpenPorts(rules: seq<Rule>, proto: string, sources: seq<Match>): seq<nat> {
    if rules == [] then [] else
      var rule := rules[|rules| - 1];
      OpenPorts(rules[..|rules| - 1], proto, sources)
        + (if IsOpenTo(rule, proto, sources) then [rule.matches[|rule.matches| - 1].port] else [])
  }

  lemma {:induction false} OpenPortsAppend(a: seq<Rule>, b: seq<Rule>, proto: string, sources: seq<Match>)
    ensures OpenPorts(a + b, proto, sources) == OpenPorts(a, proto, sources) + OpenPorts(b, proto, sources)
    decreases |b|
  {
    hide IsOpenTo;
    if b == [] {
      assert a + b == a;
    } else {
      OpenPortsAppend(a, b[..|b| - 1], proto, sources);
      assert (a + b)[..|a + b| - 1] == a + b[..|b| - 1];
    }
  }

  lemma OnlyItself(proto: string, sources: seq<Match>, port: nat, proto': string, sources': seq<Match>)
    requires |sources| <= 1 && |sources'| <= 1
    ensures IsOpenTo(OpenTo(proto, sources, port), proto', sources') <==> proto == proto' && sources == sources'
  {
    var ms := OpenTo(proto, sources, port).matches;
    assert ms[|ms| - 1] == DPort(port);
    if IsOpenTo(OpenTo(proto, sources, port), proto', sources') {
      var ms' := OpenTo(proto', sources', port).matches;
      assert ms == ms' && ms[0] == Load(proto) && ms'[0] == Load(proto');
      assert ms[2..|ms| - 1] == sources && ms'[2..|ms'| - 1] == sources';
    }
  }

  lemma {:induction false} RemotePorts(proto: string, ports: seq<Port>, proto': string, sources: seq<Match>)
    requires |sources| <= 1
    ensures OpenPorts(AllRemote(proto, ports), proto', sources) ==
            if proto == proto' && sources == [] then ports else []
    decreases |ports|
  {
    hide OpenTo, IsOpenTo, OpenPorts;
    if ports == [] {
      NoOpenPorts(proto', sources);
    } else {
      var init, port := ports[..|ports| - 1], ports[|ports| - 1];
      var rule := OpenTo(proto, [], port);
      RemotePorts(proto, init, proto', sources);
      OnlyItself(proto, [], port, proto', sources);
      LastPort(proto, [], port);
      SingleOpenPort(rule, proto', sources);
      OpenPortsAppend(AllRemote(proto, init), [rule], proto', sources);
      assert ports == init + [port];
    }
  }

  lemma LastPort(proto: string, sources: seq<Match>, port: nat)
    ensures var ms := OpenTo(proto, sources, port).matches; ms != [] && ms[|ms| - 1] == DPort(port)
  {
  }

  lemma InFirstOrRest(ranges: seq<Cidr>)
    requires ranges != [] && forall i, j :: 0 <= i < j < |ranges| ==> ranges[i] != ranges[j]
    ensures forall range :: range in ranges <==> range == ranges[0] || range in ranges[1..]
    ensures ranges[0] !in ranges[1..]
  {
    assert ranges == [ranges[0]] + ranges[1..];
  }

  lemma {:induction false} OnePortLocal(proto: string, ranges: seq<Cidr>, port: nat, proto': string,
                                        sources: seq<Match>)
    requires |sources| <= 1 && forall i, j :: 0 <= i < j < |ranges| ==> ranges[i] != ranges[j]
    ensures OpenPorts(LocalRules(proto, ranges, port), proto', sources)
         == if proto == proto' && sources != [] && sources[0].Source? && sources[0].range in ranges then [port] else []
    decreases |ranges|
  {
    hide OpenTo, IsOpenTo, OpenPorts;
    if ranges == [] {
      NoOpenPorts(proto', sources);
    } else {
      OnePortLocal(proto, ranges[1..], port, proto', sources);
      OneLineLocal(proto, ranges[0], port, proto', sources);
      OpenPortsAppend([OpenTo(proto, [Source(ranges[0])], port)], LocalRules(proto, ranges[1..], port), proto',
                      sources);
      InFirstOrRest(ranges);
    }
  }

  lemma OneLineLocal(proto: string, range: Cidr, port: nat, proto': string, sources: seq<Match>)
    requires |sources| <= 1
    ensures OpenPorts([OpenTo(proto, [Source(range)], port)], proto', sources)
         == if proto == proto' && sources != [] && sources[0].Source? && sources[0].range == range then [port] else []
  {
    hide OpenTo, IsOpenTo, OpenPorts;
    OnlyItself(proto, [Source(range)], port, proto', sources);
    LastPort(proto, [Source(range)], port);
    SingleOpenPort(OpenTo(proto, [Source(range)], port), proto', sources);
    SameSource(range, sources);
  }

  lemma SameSource(range: Cidr, sources: seq<Match>)
    requires |sources| <= 1
    ensures [Source(range)] == sources <==> sources != [] && sources[0].Source? && sources[0].range == range
  {
    if sources != [] && sources[0].Source? && sources[0].range == range { assert [Source(range)] == sources; }
  }

  lemma NoOpenPorts(proto: string, sources: seq<Match>)
    ensures OpenPorts([], proto, sources) == []
  {
  }

  lemma SingleOpenPort(rule: Rule, proto: string, sources: seq<Match>)
    ensures OpenPorts([rule], proto, sources)
         == if IsOpenTo(rule, proto, sources) then [rule.matches[|rule.matches| - 1].port] else []
  {
    assert OpenPorts([rule][..0], proto, sources) == [];
  }

  lemma {:induction false} LocalPorts(proto: string, ranges: seq<Cidr>, ports: seq<Port>, proto': string,
                                      sources: seq<Match>)
    requires |sources| <= 1 && forall i, j :: 0 <= i < j < |ranges| ==> ranges[i] != ranges[j]
    ensures OpenPorts(AllLocal(proto, ranges, ports), proto', sources)
         == if proto == proto' && sources != [] && sources[0].Source? && sources[0].range in ranges then ports else []
    decreases |ports|
  {
    hide OpenTo, IsOpenTo, OpenPorts, LocalRules;
    if ports == [] {
      NoOpenPorts(proto', sources);
    } else {
      var init, port := ports[..|ports| - 1], ports[|ports| - 1];
      LocalPorts(proto, ranges, init, proto', sources);
      OnePortLocal(proto, ranges, port, proto', sources);
      OpenPortsAppend(AllLocal(proto, ranges, init), LocalRules(proto, ranges, port), proto', sources);
      assert ports == init + [port];
    }
  }

  predicate Portless(rules: seq<Rule>) {
    forall k :: 0 <= k < |rules| ==> rules[k].matches == [] || !rules[k].matches[|rules[k].matches| - 1].DPort?
  }

  lemma {:induction false} PortlessOpensNone(rules: seq<Rule>, proto: string, sources: seq<Match>)
    requires Portless(rules)
    ensures OpenPorts(rules, proto, sources) == []
    decreases |rules|
  {
    if rules != [] { PortlessOpensNone(rules[..|rules| - 1], proto, sources); }
  }

  lemma {:induction false} Icmp6IsPortless(kinds: seq<string>, near: bool)
    ensures Portless(Icmp6Rules(kinds, near))
    decreases |kinds|
  {
    if kinds != [] {
      Icmp6IsPortless(kinds[1..], near);
      var ms := Icmp6Rule(kinds[0], near).matches;
      assert ms[|ms| - 1] == if near then HopsEqual(255) else Icmp6Type(kinds[0]);
    }
  }

  lemma FixedRulesArePortless()
    ensures Portless(HeadV4()) && Portless(TailV4()) && Portless(HeadV6()) && Portless(IfaceRules())
  {
    hide Icmp6Rules;
    Icmp6IsPortless(FAR_ICMP6, false);
    Icmp6IsPortless(NEAR_ICMP6, true);
  }

  lemma PortsOfPortRules(ports: Ports, ranges: seq<Cidr>, proto: string, sources: seq<Match>)
    requires |sources| <= 1 && forall i, j :: 0 <= i < j < |ranges| ==> ranges[i] != ranges[j]
    requires proto == "tcp" || proto == "udp"
    ensures sources == [] ==>
              OpenPorts(PortRules(ports, ranges), proto, sources) ==
                if proto == "tcp" then ports.remote.tcp else ports.remote.udp
    ensures sources != [] && sources[0].Source? && sources[0].range in ranges ==>
              OpenPorts(PortRules(ports, ranges), proto, sources) ==
                if proto == "tcp" then ports.local.tcp else ports.local.udp
  {
    hide OpenPorts, AllRemote, AllLocal;
    var a, b := AllRemote("tcp", ports.remote.tcp), AllLocal("tcp", ranges, ports.local.tcp);
    var c, d := AllRemote("udp", ports.remote.udp), AllLocal("udp", ranges, ports.local.udp);
    RemotePorts("tcp", ports.remote.tcp, proto, sources);
    LocalPorts("tcp", ranges, ports.local.tcp, proto, sources);
    RemotePorts("udp", ports.remote.udp, proto, sources);
    LocalPorts("udp", ranges, ports.local.udp, proto, sources);
    OpenPortsAppend(a, b, proto, sources);
    OpenPortsAppend(a + b, c, proto, sources);
    OpenPortsAppend(a + b + c, d, proto, sources);
    TcpIsNotUdp();
  }

  /** The fixed rules around them hide no port. */
  lemma PortsOfChain(head: seq<Rule>, middle: seq<Rule>, tail: seq<Rule>, proto: string, sources: seq<Match>)
    requires Portless(head) && Portless(tail)
    ensures OpenPorts(head + middle + tail, proto, sources) == OpenPorts(middle, proto, sources)
  {
    hide OpenPorts, Portless;
    PortlessOpensNone(head, proto, sources);
    PortlessOpensNone(tail, proto, sources);
    OpenPortsAppend(head, middle, proto, sources);
    OpenPortsAppend(head + middle, tail, proto, sources);
  }

  /** What the port list for `proto` and `range` is; no range stands for remote. */
  function Listed(ports: Ports, proto: string, range: Option<Cidr>): seq<Port> {
    var chosen := if range.Some? then ports.local else ports.remote;
    if proto == "tcp" then chosen.tcp else chosen.udp
  }

  function SourceOf(range: Option<Cidr>): seq<Match> { if range.Some? then [Source(range.value)] else [] }

  /** Reading the rendered text gives back every port list, in order and with repetitions. */
  lemma PortListsAreRecovered(ports: Ports, proto: string, range: Option<Cidr>)
    requires proto == "tcp" || proto == "udp"
    ensures range.None? || range.value in LOCAL_V4 ==>
              ParseText(V4Text(ports)).Some? && OpenPorts(ParseText(V4Text(ports)).value, proto, SourceOf(range))
                == Listed(ports, proto, range)
    ensures range.None? || range.value in LOCAL_V6 ==>
              ParseText(V6Text(ports)).Some? && OpenPorts(ParseText(V6Text(ports)).value, proto, SourceOf(range))
                == Listed(ports, proto, range)
  {
    hide ParseText, Text, OpenPorts, Portless, HeadV4, TailV4, HeadV6, IfaceRules, PortRules;
    FixedRulesArePortless();
    V4ReadsBack(ports);
    V6ReadsBack(ports);
    PortsOfChain(HeadV4(), PortRules(ports, LOCAL_V4), TailV4(), proto, SourceOf(range));
    PortsOfChain(HeadV6(), PortRules(ports, LOCAL_V6), IfaceRules(), proto, SourceOf(range));
    PortsOfPortRules(ports, LOCAL_V4, proto, SourceOf(range));
    PortsOfPortRules(ports, LOCAL_V6, proto, SourceOf(range));
  }

  /** The ranges as the rules write them. */
  lemma RangeTexts()
    ensures CidrText(LAN_192) == "192.168.0.0/16" && CidrText(LAN_172) == "172.16.0.0/12"
    ensures CidrText(LAN_10) == "10.0.0.0/8"
    ensures CidrText(UNIQUE_LOCAL) == "fd00::/8" && CidrText(LINK_LOCAL) == "fe80::/10"
    ensures CidrText(V4(127, 0, 0, 0, 8)) == "127.0.0.0/8" && CidrText(V6(0, 1, 128)) == "::1/128"
  {
    hide Join, Digits;
    FewDigits();
    forall a, b, c, d, len ensures CidrText(V4(a, b, c, d, len)) ==
      Digits(10, a) + "." + (Digits(10, b) + "." + (Digits(10, c) + "." + Digits(10, d))) + "/"
        + Digits(10, len) { DottedText(a, b, c, d, len); }
    forall high, low, len
      ensures CidrText(V6(high, low, len)) == Group(high) + "::" + Group(low) + "/" + Digits(10, len)
    {
      ColonText(high, low, len);
    }
  }

  lemma FewDigits()
    ensures Digits(10, 192) == "192" && Digits(10, 168) == "168" && Digits(10, 0) == "0" && Digits(10, 16) == "16"
    ensures Digits(10, 172) == "172" && Digits(10, 12) == "12" && Digits(10, 10) == "10" && Digits(10, 8) == "8"
    ensures Digits(16, 0xfd00) == "fd00" && Digits(16, 0xfe80) == "fe80" && Digits(16, 1) == "1"
    ensures Digits(10, 127) == "127" && Digits(10, 128) == "128"
  {
  }

  lemma JoinCons(part: string, rest: seq<string>, sep: char)
    requires rest != []
    ensures Join([part] + rest, sep) == part + [sep] + Join(rest, sep)
  {
    assert ([part] + rest)[1..] == rest;
  }

  lemma JoinOne(part: string, sep: char)
    ensures Join([part], sep) == part
  {
  }

  lemma DottedText(a: nat, b: nat, c: nat, d: nat, len: nat)
    ensures CidrText(V4(a, b, c, d, len))
         == Digits(10, a) + "." + (Digits(10, b) + "." + (Digits(10, c) + "." + Digits(10, d))) + "/" + Digits(10, len)
  {
    hide Digits, Join;
    var s, t, u, v := Digits(10, a), Digits(10, b), Digits(10, c), Digits(10, d);
    assert [s, t, u, v] == [s] + [t, u, v] && [t, u, v] == [t] + [u, v] && [u, v] == [u] + [v];
    JoinCons(s, [t, u, v], '.');
    JoinCons(t, [u, v], '.');
    JoinCons(u, [v], '.');
    JoinOne(v, '.');
    LengthText(V4(a, b, c, d, len));
  }

  lemma LengthText(r: Cidr)
    ensures CidrText(r) == Join(AddressParts(r), AddressSeparator(r)) + "/" + Digits(10, r.len)
  {
    hide Digits, Join, AddressParts;
    var address, n := Join(AddressParts(r), AddressSeparator(r)), Digits(10, r.len);
    assert [address, n] == [address] + [n];
    JoinCons(address, [n], '/');
    JoinOne(n, '/');
  }

  lemma ColonText(high: nat, low: nat, len: nat)
    ensures CidrText(V6(high, low, len)) == Group(high) + "::" + Group(low) + "/" + Digits(10, len)
  {
    hide Digits, Join;
    var s, t := Group(high), Group(low);
    assert [s, "", t] == [s] + ["", t] && ["", t] == [""] + [t];
    JoinCons(s, ["", t], ':');
    JoinCons("", [t], ':');
    JoinOne(t, ':');
    LengthText(V6(high, low, len));
  }
}
