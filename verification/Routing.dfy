/**
  The rule merge of build_runtime_config as a transformation of first-match rule
  lists. A packet carries its inbound tag, its network and the set of other
  matchers (domains, addresses, ports, processes) it satisfies, so a rule list
  is read without knowing what those matchers mean.
 */
module Routing {
  import opened Common

  datatype Network = Tcp | Udp | Other

  /** A condition of a rule besides the inbound tag and the network, by key and value. */
  datatype Matcher = Matcher(key: string, value: string)

  datatype Packet = Packet(inbound: string, network: Network, facts: set<Matcher>)

  /** Where a rule sends its packets. */
  datatype Target = Outbound(tag: string) | Balancer(tag: string) | Nowhere

  datatype Rule = Rule(inboundTags: Option<seq<string>>, network: Option<string>, matchers: set<Matcher>,
                       target: Target)

  predicate NetworkMatches(want: Option<string>, have: Network) {
    match want
    case None => true
    case Some("tcp,udp") => have.Tcp? || have.Udp?
    case Some("udp,tcp") => have.Tcp? || have.Udp?
    case Some("tcp") => have.Tcp?
    case Some("udp") => have.Udp?
    case _ => false
  }

  /** The other way round: what a rule has to say to get packets of a network. */
  lemma NetworksOfRules(want: Option<string>)
    ensures NetworkMatches(want, Tcp) <==> want in {None, Some("tcp"), Some("tcp,udp"), Some("udp,tcp")}
    ensures NetworkMatches(want, Udp) <==> want in {None, Some("udp"), Some("tcp,udp"), Some("udp,tcp")}
    ensures NetworkMatches(want, Other) <==> want.None?
  {}

  /** The part of a rule that looks at inbound tag and network only. */
  predicate Admits(rule: Rule, inbound: string, network: Network) {
    && (rule.inboundTags.None? || inbound in rule.inboundTags.value)
    && NetworkMatches(rule.network, network)
  }

  predicate Matches(rule: Rule, p: Packet) {
    Admits(rule, p.inbound, p.network) && rule.matchers <= p.facts
  }

  /** First match; None when no rule applies. */
  function Route(rules: seq<Rule>, p: Packet): Option<Target> {
    if |rules| == 0 then None
    else if Matches(rules[0], p) then Some(rules[0].target)
    else Route(rules[1..], p)
  }

  const PROXY := Outbound("proxy")
  const BOTH := Some("tcp,udp")

  const OWN_TRAFFIC := Rule(Some(["tun-in"]), None, {Matcher("process", "self/,xray")}, Outbound("direct"))
  const BOOTSTRAP := Rule(Some(["dns-bootstrap"]), None, {}, Outbound("dns-direct"))
  const APP_DNS := Rule(Some(["tun-in"]), BOTH, {Matcher("port", "53")}, Outbound("dns-out"))
  const LOCAL_RULES := [OWN_TRAFFIC, BOOTSTRAP, APP_DNS]
  const CATCH_ALL := Rule(None, BOTH, {}, PROXY)

  /** The rules the merge drops: the filter looks at these two keys and at nothing else. */
  predicate Dropped(rule: Rule) {
    rule.target == PROXY && rule.network == BOTH
  }

  function Keep(rules: seq<Rule>): seq<Rule> {
    if |rules| == 0 then []
    else (if Dropped(rules[0]) then [] else [rules[0]]) + Keep(rules[1..])
  }

  /** Which rules the filter drops, one by one, and that it leaves the rest in order and number as it was. */
  lemma KeepIsFilter(a: seq<Rule>, b: seq<Rule>, r: Rule)
    ensures Keep([r]) == if r.target == Outbound("proxy") && r.network == Some("tcp,udp") then [] else [r]
    ensures Keep(a + b) == Keep(a) + Keep(b)
  {
    assert [r][1..] == [];
    KeepAppend(a, b);
  }

  lemma {:induction false} KeepAppend(a: seq<Rule>, b: seq<Rule>)
    ensures Keep(a + b) == Keep(a) + Keep(b)
  {
    if |a| == 0 {
      assert a + b == b;
    } else {
      var both := a + b;
      assert both[0] == a[0] && both[1..] == a[1..] + b;
      KeepAppend(a[1..], b);
      var front := if Dropped(a[0]) then [] else [a[0]];
      assert Keep(both) == front + (Keep(a[1..]) + Keep(b));
      assert front + (Keep(a[1..]) + Keep(b)) == front + Keep(a[1..]) + Keep(b);
    }
  }

  lemma {:induction false} KeptIff(rules: seq<Rule>, r: Rule)
    ensures r in Keep(rules) <==> r in rules && !(r.target == Outbound("proxy") && r.network == Some("tcp,udp"))
  {
    if |rules| > 0 {
      KeptIff(rules[1..], r);
      assert rules == [rules[0]] + rules[1..];
    }
  }

  /** The merged list; dnsRules is what tunnel mode puts in front of the subscription's rules. */
  function Merge(rules: seq<Rule>, dnsRules: seq<Rule>): seq<Rule> {
    LOCAL_RULES + dnsRules + Keep(rules) + [CATCH_ALL]
  }

  /** The subscription's own meaning: its list, with "proxy" for what no rule catches. */
  function OwnRoute(rules: seq<Rule>, p: Packet): Target {
    var r := Route(rules, p);
    if r.Some? then r.value else PROXY
  }

  lemma {:induction false} RouteAppend(a: seq<Rule>, b: seq<Rule>, p: Packet)
    ensures Route(a + b, p) == if Route(a, p).Some? then Route(a, p) else Route(b, p)
  {
    if |a| == 0 {
      assert a + b == b;
    } else {
      RouteAppend(a[1..], b, p);
      assert (a + b)[1..] == a[1..] + b;
    }
  }

  predicate CaughtLocally(p: Packet) {
    Route(LOCAL_RULES, p).Some?
  }

  /** What the local rules take for themselves: xray's own traffic, the bootstrap resolver, the apps' port 53. */
  lemma CaughtLocallyIff(p: Packet)
    ensures CaughtLocally(p) <==>
      || p.inbound == "dns-bootstrap"
      || (p.inbound == "tun-in" && Matcher("process", "self/,xray") in p.facts)
      || (p.inbound == "tun-in" && TcpOrUdp(p) && Matcher("port", "53") in p.facts)
  {
    var i := RouteIndex(LOCAL_RULES, p);
    assert OWN_TRAFFIC in LOCAL_RULES && BOOTSTRAP in LOCAL_RULES && APP_DNS in LOCAL_RULES;
  }

  predicate TcpOrUdp(p: Packet) {
    p.network.Tcp? || p.network.Udp?
  }

  /** Where the merged list sends a packet: the local rules, then the dns rule, then the kept rules, then the proxy. */
  lemma MergedRoute(rules: seq<Rule>, dnsRules: seq<Rule>, p: Packet)
    ensures Route(Merge(rules, dnsRules), p) ==
      if p.inbound == "tun-in" && Matcher("process", "self/,xray") in p.facts then Some(Outbound("direct"))
      else if p.inbound == "dns-bootstrap" then Some(Outbound("dns-direct"))
      else if p.inbound == "tun-in" && TcpOrUdp(p) && Matcher("port", "53") in p.facts then Some(Outbound("dns-out"))
      else if Route(dnsRules, p).Some? then Route(dnsRules, p)
      else if Route(Keep(rules), p).Some? then Route(Keep(rules), p)
      else if p.network.Tcp? || p.network.Udp? then Some(Outbound("proxy"))
      else None
  {
    RouteAppend(LOCAL_RULES + dnsRules + Keep(rules), [CATCH_ALL], p);
    RouteAppend(LOCAL_RULES + dnsRules, Keep(rules), p);
    RouteAppend(LOCAL_RULES, dnsRules, p);
    LocalRoute(p);
    assert [CATCH_ALL][1..] == [];
  }

  lemma LocalRoute(p: Packet)
    ensures Route(LOCAL_RULES, p) ==
      if p.inbound == "tun-in" && Matcher("process", "self/,xray") in p.facts then Some(Outbound("direct"))
      else if p.inbound == "dns-bootstrap" then Some(Outbound("dns-direct"))
      else if p.inbound == "tun-in" && TcpOrUdp(p) && Matcher("port", "53") in p.facts then Some(Outbound("dns-out"))
      else None
  {
    assert LOCAL_RULES[1..] == [BOOTSTRAP, APP_DNS] && [BOOTSTRAP, APP_DNS][1..] == [APP_DNS] && [APP_DNS][1..] == [];
    assert Route(LOCAL_RULES[1..], p) ==
      if Matches(BOOTSTRAP, p) then Some(BOOTSTRAP.target) else Route([APP_DNS], p);
    assert Route([APP_DNS], p) == if Matches(APP_DNS, p) then Some(APP_DNS.target) else None;
  }

  /** Every tcp or udp packet gets a decision, whatever the subscription says. */
  lemma EveryPacketDecided(rules: seq<Rule>, dnsRules: seq<Rule>, p: Packet)
    requires TcpOrUdp(p)
    ensures Route(Merge(rules, dnsRules), p).Some?
  {
    RouteAppend(LOCAL_RULES + dnsRules + Keep(rules), [CATCH_ALL], p);
  }

  // ── When the merge keeps the subscription's meaning ────────────────────────

  /** p gets past the local rules and the dns rule. */
  predicate Reaches(p: Packet, dnsRules: seq<Rule>) {
    !CaughtLocally(p) && Route(dnsRules, p).None?
  }

  predicate FirstMatch(rules: seq<Rule>, i: nat, p: Packet) {
    i < |rules| && Matches(rules[i], p) && forall k | 0 <= k < i :: !Matches(rules[k], p)
  }

  predicate FirstKeptMatch(rules: seq<Rule>, j: nat, p: Packet) {
    && j < |rules| && !Dropped(rules[j]) && Matches(rules[j], p)
    && forall k | 0 <= k < j && !Dropped(rules[k]) :: !Matches(rules[k], p)
  }

  /**
    Rule i is the first to match p and would send it to the proxy, but it is for
    "proxy" and "tcp,udp" and so not there any more; rule j, which sends p
    elsewhere, is the first match among the rules that are not of that kind.
   */
  predicate TakesOver(rules: seq<Rule>, i: nat, j: nat, p: Packet) {
    && FirstMatch(rules, i, p) && rules[i].target == Outbound("proxy") && rules[i].network == Some("tcp,udp")
    && j < |rules| && Matches(rules[j], p) && rules[j].target != Outbound("proxy")
    && forall k | 0 <= k < j && Matches(rules[k], p) ::
         rules[k].target == Outbound("proxy") && rules[k].network == Some("tcp,udp")
  }

  ghost predicate Diverted(rules: seq<Rule>, p: Packet) {
    exists i: nat, j: nat :: TakesOver(rules, i, j, p)
  }

  /** The merged list means the same to p as the subscription's own. */
  ghost predicate SameFor(rules: seq<Rule>, dnsRules: seq<Rule>, p: Packet) {
    Route(Merge(rules, dnsRules), p) == Some(OwnRoute(rules, p))
  }

  lemma {:induction false} RouteIndex(rules: seq<Rule>, p: Packet) returns (i: nat)
    ensures Route(rules, p).Some? ==> FirstMatch(rules, i, p) && Route(rules, p).value == rules[i].target
    ensures Route(rules, p).None? ==> forall r <- rules :: !Matches(r, p)
  {
    i := 0;
    if |rules| > 0 && !Matches(rules[0], p) {
      var rest := RouteIndex(rules[1..], p);
      i := rest + 1;
      assert rules == [rules[0]] + rules[1..];
      if Route(rules, p).Some? {
        forall k | 0 <= k < i ensures !Matches(rules[k], p) {
          if k > 0 {
            assert rules[k] == rules[1..][k - 1];
          }
        }
      }
    }
  }

  lemma {:induction false} FirstMatchRoutes(rules: seq<Rule>, i: nat, p: Packet)
    requires FirstMatch(rules, i, p)
    ensures Route(rules, p) == Some(rules[i].target)
  {
    if i > 0 {
      assert !Matches(rules[0], p);
      forall k | 0 <= k < i - 1 ensures !Matches(rules[1..][k], p) {
        assert rules[1..][k] == rules[k + 1];
      }
      FirstMatchRoutes(rules[1..], i - 1, p);
    }
  }

  lemma {:induction false} KeptIndex(rules: seq<Rule>, p: Packet) returns (j: nat)
    ensures Route(Keep(rules), p).Some? ==>
      FirstKeptMatch(rules, j, p) && Route(Keep(rules), p).value == rules[j].target
    ensures Route(Keep(rules), p).None? ==> forall k | 0 <= k < |rules| && !Dropped(rules[k]) :: !Matches(rules[k], p)
  {
    j := 0;
    if |rules| > 0 {
      var rest := KeptIndex(rules[1..], p);
      RouteAppend(if Dropped(rules[0]) then [] else [rules[0]], Keep(rules[1..]), p);
      if Dropped(rules[0]) || !Matches(rules[0], p) {
        j := rest + 1;
        forall k | 1 <= k < |rules| ensures rules[k] == rules[1..][k - 1] {}
      }
    }
  }

  lemma FirstKeptRoutes(rules: seq<Rule>, j: nat, p: Packet)
    requires FirstKeptMatch(rules, j, p)
    ensures Route(Keep(rules), p) == Some(rules[j].target)
  {
    var j' := KeptIndex(rules, p);
  }

  /** Packet by packet: past the local rules the merge changes the routing exactly when a kept rule takes over. */
  lemma SameForIff(rules: seq<Rule>, dnsRules: seq<Rule>, p: Packet)
    requires TcpOrUdp(p) && Reaches(p, dnsRules)
    ensures SameFor(rules, dnsRules, p) <==> !Diverted(rules, p)
  {
    MergedRoute(rules, dnsRules, p);
    CaughtLocallyIff(p);
    if i: nat, j: nat :| TakesOver(rules, i, j, p) {
      FirstMatchRoutes(rules, i, p);
      FirstKeptRoutes(rules, j, p);
    }
    if !SameFor(rules, dnsRules, p) {
      var i, j := ChangedIsTakenOver(rules, dnsRules, p);
    }
  }

  lemma ChangedIsTakenOver(rules: seq<Rule>, dnsRules: seq<Rule>, p: Packet) returns (i: nat, j: nat)
    requires TcpOrUdp(p) && Reaches(p, dnsRules) && !SameFor(rules, dnsRules, p)
    ensures TakesOver(rules, i, j, p)
  {
    MergedRoute(rules, dnsRules, p);
    CaughtLocallyIff(p);
    i := RouteIndex(rules, p);
    j := KeptIndex(rules, p);
    if Route(rules, p).Some? && FirstKeptMatch(rules, i, p) {
      FirstKeptRoutes(rules, i, p);
    }
  }

  /**
    The packets there can be. Matchers exclude each other in ways a rule list
    does not show: no packet has two destination ports.
   */
  type Packets = iset<Packet>

  ghost predicate MeaningKept(rules: seq<Rule>, dnsRules: seq<Rule>, possible: Packets) {
    forall p <- possible | TcpOrUdp(p) && Reaches(p, dnsRules) :: SameFor(rules, dnsRules, p)
  }

  ghost predicate NothingTakesOver(rules: seq<Rule>, dnsRules: seq<Rule>, possible: Packets) {
    forall p <- possible | TcpOrUdp(p) && Reaches(p, dnsRules) :: !Diverted(rules, p)
  }

  /** The merge keeps the subscription's routing for all possible packets exactly when no kept rule takes one over. */
  lemma MergeKeepsMeaningIff(rules: seq<Rule>, dnsRules: seq<Rule>, possible: Packets)
    ensures MeaningKept(rules, dnsRules, possible) <==> NothingTakesOver(rules, dnsRules, possible)
  {
    forall p <- possible | TcpOrUdp(p) && Reaches(p, dnsRules)
      ensures SameFor(rules, dnsRules, p) <==> !Diverted(rules, p)
    {
      SameForIff(rules, dnsRules, p);
    }
  }

  /** In particular when the dropped rules come last, whatever else they look at. */
  lemma DroppedSuffixKeepsMeaning(rules: seq<Rule>, dnsRules: seq<Rule>, possible: Packets, n: nat)
    requires n <= |rules|
    requires forall k | 0 <= k < n :: rules[k].target != Outbound("proxy") || rules[k].network != Some("tcp,udp")
    requires forall k | n <= k < |rules| :: rules[k].target == Outbound("proxy") && rules[k].network == Some("tcp,udp")
    ensures MeaningKept(rules, dnsRules, possible)
  {
    MergeKeepsMeaningIff(rules, dnsRules, possible);
    forall p, i: nat, j: nat ensures !TakesOver(rules, i, j, p) {}
  }

  // ── The condition read off the rules alone ─────────────────────────────────

  /** The weakest packet with this inbound tag and network that satisfies the matchers of both rules. */
  function JointPacket(a: Rule, b: Rule, inbound: string, network: Network): Packet {
    Packet(inbound, network, a.matchers + b.matchers)
  }

  /** A packet with fewer facts is matched by fewer rules. */
  lemma {:induction false} FewerFactsFewerMatches(rules: seq<Rule>, p: Packet, q: Packet)
    requires p.inbound == q.inbound && p.network == q.network && q.facts <= p.facts
    requires Route(rules, p).None?
    ensures Route(rules, q).None?
  {
    if |rules| > 0 {
      FewerFactsFewerMatches(rules[1..], p, q);
    }
  }

  /** The joint packet of a dropped and a kept rule is possible whenever any packet of both is. */
  ghost predicate Independent(rules: seq<Rule>, possible: Packets) {
    forall p <- possible, i, j |
      0 <= i < |rules| && 0 <= j < |rules| && Matches(rules[i], p) && Matches(rules[j], p) ::
      JointPacket(rules[i], rules[j], p.inbound, p.network) in possible
  }

  /** The joint packet of rules i and j shows a take-over. */
  predicate JointlyTakesOver(rules: seq<Rule>, dnsRules: seq<Rule>, i: nat, j: nat, inbound: string, network: Network) {
    && i < |rules| && j < |rules|
    && var p := JointPacket(rules[i], rules[j], inbound, network);
       TcpOrUdp(p) && Reaches(p, dnsRules) && TakesOver(rules, i, j, p)
  }

  lemma TakesOverJointly(rules: seq<Rule>, dnsRules: seq<Rule>, i: nat, j: nat, p: Packet)
    requires TcpOrUdp(p) && Reaches(p, dnsRules) && TakesOver(rules, i, j, p)
    ensures JointlyTakesOver(rules, dnsRules, i, j, p.inbound, p.network)
  {
    var q := JointPacket(rules[i], rules[j], p.inbound, p.network);
    FewerFactsFewerMatches(LOCAL_RULES, p, q);
    FewerFactsFewerMatches(dnsRules, p, q);
  }

  ghost predicate NothingJointlyTakesOver(rules: seq<Rule>, dnsRules: seq<Rule>, possible: Packets) {
    forall i: nat, j: nat, inbound, network | JointlyTakesOver(rules, dnsRules, i, j, inbound, network) ::
      JointPacket(rules[i], rules[j], inbound, network) !in possible
  }

  /** For matchers that do not exclude each other it is enough to look at the joint packet of each two rules. */
  lemma IndependentKeepsMeaningIff(rules: seq<Rule>, dnsRules: seq<Rule>, possible: Packets)
    requires Independent(rules, possible)
    ensures MeaningKept(rules, dnsRules, possible) <==> NothingJointlyTakesOver(rules, dnsRules, possible)
  {
    MergeKeepsMeaningIff(rules, dnsRules, possible);
    if NothingJointlyTakesOver(rules, dnsRules, possible) {
      forall p <- possible | TcpOrUdp(p) && Reaches(p, dnsRules) ensures !Diverted(rules, p) {
        if i: nat, j: nat :| TakesOver(rules, i, j, p) {
          TakesOverJointly(rules, dnsRules, i, j, p);
        }
      }
    } else {
      var i: nat, j: nat, inbound, network :|
        JointlyTakesOver(rules, dnsRules, i, j, inbound, network)
        && JointPacket(rules[i], rules[j], inbound, network) in possible;
      assert Diverted(rules, JointPacket(rules[i], rules[j], inbound, network));
    }
  }

  // ── Two examples ───────────────────────────────────────────────────────────

  function ForDomain(domain: string, target: Target): Rule {
    Rule(None, BOTH, {Matcher("domain", domain)}, target)
  }

  /** A rule for one domain only, followed by a direct catch-all: the filter turns the domain direct. */
  lemma MatcherRuleDroppedChangesMeaning(domain: string, possible: Packets)
    requires Packet("socks", Tcp, {Matcher("domain", domain)}) in possible
    ensures !MeaningKept([ForDomain(domain, PROXY), Rule(None, BOTH, {}, Outbound("direct"))], [], possible)
  {
    var rules := [ForDomain(domain, PROXY), Rule(None, BOTH, {}, Outbound("direct"))];
    var p := Packet("socks", Tcp, {Matcher("domain", domain)});
    CaughtLocallyIff(p);
    assert Route([], p).None?;
    assert TakesOver(rules, 0, 1, p);
    MergeKeepsMeaningIff(rules, [], possible);
  }

  /** The same in front of a direct rule for another domain is harmless, as long as no packet is for both. */
  lemma ExclusiveDomainsKeepMeaning(a: string, b: string, possible: Packets)
    requires forall p <- possible :: !({Matcher("domain", a), Matcher("domain", b)} <= p.facts)
    ensures MeaningKept([ForDomain(a, PROXY), ForDomain(b, Outbound("direct"))], [], possible)
  {
    var rules := [ForDomain(a, PROXY), ForDomain(b, Outbound("direct"))];
    MergeKeepsMeaningIff(rules, [], possible);
    forall p <- possible ensures !Diverted(rules, p) {
      forall i: nat, j: nat ensures !TakesOver(rules, i, j, p) {}
    }
  }

  // ── Name lookups ───────────────────────────────────────────────────────────

  function DnsRule(target: Target): Rule {
    Rule(Some(["dns-in"]), None, {}, target)
  }

  /** Lookups of the bootstrap resolver go to dns-direct before any rule of the subscription. */
  lemma BootstrapGoesDirect(rules: seq<Rule>, dnsRules: seq<Rule>, p: Packet)
    requires p.inbound == "dns-bootstrap"
    ensures Route(Merge(rules, dnsRules), p) == Some(Outbound("dns-direct"))
  {
    MergedRoute(rules, dnsRules, p);
  }

  /** In tunnel mode every lookup of the built-in resolver goes to the pinned target; nothing else changes its way. */
  lemma LookupsGoToTarget(rules: seq<Rule>, target: Target, p: Packet)
    ensures p.inbound == "dns-in" ==> Route(Merge(rules, [DnsRule(target)]), p) == Some(target)
    ensures p.inbound != "dns-in" ==> Route(Merge(rules, [DnsRule(target)]), p) == Route(Merge(rules, []), p)
  {
    MergedRoute(rules, [DnsRule(target)], p);
    MergedRoute(rules, [], p);
    assert [DnsRule(target)][1..] == [];
  }

  /** Otherwise lookups follow the subscription's own rules, like other traffic, unless a kept rule takes over. */
  lemma LookupsFollowSubscriptionIff(rules: seq<Rule>, p: Packet)
    requires p.inbound == "dns-in" && TcpOrUdp(p)
    ensures Route(Merge(rules, []), p) == Some(OwnRoute(rules, p)) <==> !Diverted(rules, p)
  {
    CaughtLocallyIff(p);
    assert Route([], p).None?;
    SameForIff(rules, [], p);
  }
}
