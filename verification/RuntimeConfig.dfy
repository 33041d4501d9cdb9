/**
  build_runtime_config: the subscription's server config becomes a runnable one.
  Outbounds are objects whose marks are set in place, on a copy.
 */
module RuntimeConfig {
  import opened Common
  import R = Routing

  const KILLSWITCH_MARK := 0x6B73
  const BOOTSTRAP_TAG := "dns-bootstrap"
  const BOOTSTRAP_FALLBACK := "https://1.1.1.1/dns-query"

  /** One server entry; either part may be missing in a subscription. */
  datatype Peer = Peer(address: Option<string>, port: Option<int>)

  datatype Settings = Vnext(peers: seq<Peer>) | Servers(peers: seq<Peer>) | Flat(peer: Peer) | NoSettings

  /** The parts of an outbound the merge looks at or changes. */
  datatype OutboundView = OutboundView(protocol: Option<string>, tag: Option<string>, settings: Settings,
                                       mark: Option<int>, dialer: Option<string>)

  /** An entry of the dns server list; a dictionary entry may be limited to some domains. */
  datatype DnsServer =
    | Plain(address: string)
    | Entry(domains: seq<string>, entryAddress: Option<string>, tag: Option<string>, skipFallback: bool)
    | Junk

  /** What the standard library knows about addresses. */
  datatype Names = Names(isIp: string -> bool, hostOf: string -> Option<string>)

  predicate IsProxy(o: OutboundView) {
    o.protocol !in {Some("freedom"), Some("blackhole"), Some("dns")}
  }

  predicate Tagged(o: OutboundView) {
    o.tag.Some? && o.tag.value != ""
  }

  // ── The servers a config talks to ──────────────────────────────────────────

  function FirstPeer(settings: Settings): Option<Peer> {
    match settings
    case Vnext(peers) => if |peers| > 0 then Some(peers[0]) else None
    case Servers(peers) => if |peers| > 0 then Some(peers[0]) else None
    case Flat(peer) => if peer.address.Some? then Some(peer) else None
    case NoSettings => None
  }

  /** _outbound_target of a single outbound: None when a part is missing. */
  function Endpoint(o: OutboundView): Option<(string, int)> {
    var peer := FirstPeer(o.settings);
    if peer.Some? && peer.value.address.Some? && peer.value.port.Some?
    then Some((peer.value.address.value, peer.value.port.value)) else None
  }

  /** The outbound is a proxy, whatever its protocol is called, and its first server is complete. */
  predicate TalksTo(o: OutboundView, host: string, port: int) {
    && o.protocol != Some("freedom") && o.protocol != Some("blackhole") && o.protocol != Some("dns")
    && match o.settings
       case NoSettings => false
       case Flat(peer) => peer == Peer(Some(host), Some(port))
       case Vnext(peers) => |peers| > 0 && peers[0] == Peer(Some(host), Some(port))
       case Servers(peers) => |peers| > 0 && peers[0] == Peer(Some(host), Some(port))
  }

  lemma TalksToIff(o: OutboundView, e: (string, int))
    ensures TalksTo(o, e.0, e.1) <==> IsProxy(o) && Endpoint(o) == Some(e)
  {}

  /** server_endpoints_of: every proxy outbound's server, each once. */
  method EndpointsOf(outbounds: seq<OutboundView>) returns (endpoints: seq<(string, int)>)
    ensures forall e :: e in endpoints <==> exists o <- outbounds :: TalksTo(o, e.0, e.1)
    ensures forall i, j | 0 <= i < j < |endpoints| :: endpoints[i] != endpoints[j]
  {
    endpoints := [];
    for i := 0 to |outbounds|
      invariant forall e :: e in endpoints <==> exists o <- outbounds[..i] :: TalksTo(o, e.0, e.1)
      invariant forall j, k | 0 <= j < k < |endpoints| :: endpoints[j] != endpoints[k]
    {
      assert outbounds[..i + 1] == outbounds[..i] + [outbounds[i]];
      forall e: (string, int)
        ensures TalksTo(outbounds[i], e.0, e.1) <==> IsProxy(outbounds[i]) && Endpoint(outbounds[i]) == Some(e)
      {
        TalksToIff(outbounds[i], e);
      }
      if !IsProxy(outbounds[i]) { continue; }
      var target := Endpoint(outbounds[i]);
      if target.Some? && target.value !in endpoints {
        endpoints := endpoints + [target.value];
      }
    }
    assert outbounds[..|outbounds|] == outbounds;
  }

  /** The hosts that only the bootstrap resolver may look up. */
  ghost predicate IsBootstrapHost(outbounds: seq<OutboundView>, names: Names, host: string) {
    !names.isIp(host) && exists o <- outbounds, port :: TalksTo(o, host, port)
  }

  method BootstrapHosts(outbounds: seq<OutboundView>, names: Names) returns (hosts: seq<string>)
    ensures ExactlyBootstrapHosts(outbounds, names, hosts)
  {
    var endpoints := EndpointsOf(outbounds);
    hosts := [];
    for i := 0 to |endpoints|
      invariant forall h :: h in hosts <==> exists e <- endpoints[..i] :: e.0 == h && !names.isIp(h)
    {
      assert endpoints[..i + 1] == endpoints[..i] + [endpoints[i]];
      if !names.isIp(endpoints[i].0) {
        hosts := hosts + [endpoints[i].0];
      }
    }
    assert endpoints[..|endpoints|] == endpoints;
    forall h | h in hosts ensures IsBootstrapHost(outbounds, names, h) {
      var e :| e in endpoints && e.0 == h && !names.isIp(h);
      var o :| o in outbounds && TalksTo(o, e.0, e.1);
    }
    forall h | IsBootstrapHost(outbounds, names, h) ensures h in hosts {
      var o, port :| o in outbounds && TalksTo(o, h, port);
      assert (h, port) in endpoints;
    }
  }

  // ── The bootstrap resolver ─────────────────────────────────────────────────

  /** Unrestricted and addressed by IP. */
  predicate Usable(s: DnsServer, names: Names) {
    match s
    case Plain(address) => AddressedByIp(address, names)
    case Entry(domains, address, _, _) => domains == [] && address.Some? && AddressedByIp(address.value, names)
    case Junk => false
  }

  predicate AddressedByIp(address: string, names: Names) {
    var host := names.hostOf(address);
    host.Some? && host.value != "" && names.isIp(host.value)
  }

  /** The entry gives an address whose host is an IP, and is not limited to some domains. */
  lemma UsableIff(s: DnsServer, names: Names)
    ensures Usable(s, names) <==> exists address ::
      && (s == Plain(address) || (s.Entry? && s.domains == [] && s.entryAddress == Some(address)))
      && names.hostOf(address) !in {None, Some("")} && names.isIp(names.hostOf(address).value)
  {
    if Usable(s, names) {
      var address := if s.Plain? then s.address else s.entryAddress.value;
      assert s == Plain(address) || (s.Entry? && s.domains == [] && s.entryAddress == Some(address));
    }
  }

  function AddressOf(s: DnsServer): Option<string> {
    match s
    case Plain(address) => Some(address)
    case Entry(_, address, _, _) => address
    case Junk => None
  }

  ghost predicate FirstUsable(servers: seq<DnsServer>, names: Names, i: nat) {
    i < |servers| && Usable(servers[i], names) && forall j | 0 <= j < i :: !Usable(servers[j], names)
  }

  /** The address of the first usable resolver, else the fallback. */
  ghost predicate IsBootstrapAddress(servers: seq<DnsServer>, names: Names, address: string) {
    || (exists i: nat :: FirstUsable(servers, names, i) && AddressOf(servers[i]) == Some(address))
    || (address == BOOTSTRAP_FALLBACK && forall j | 0 <= j < |servers| :: !Usable(servers[j], names))
  }

  /** _bootstrap_resolver */
  method BootstrapResolver(servers: seq<DnsServer>, names: Names) returns (address: string)
    ensures IsBootstrapAddress(servers, names, address)
    ensures (forall j | 0 <= j < |servers| :: !Usable(servers[j], names)) ==> address == "https://1.1.1.1/dns-query"
    ensures AddressedByIp(BOOTSTRAP_FALLBACK, names) ==> AddressedByIp(address, names)
  {
    for i := 0 to |servers|
      invariant forall j | 0 <= j < i :: !Usable(servers[j], names)
    {
      var server := servers[i];
      if server.Junk? || (server.Entry? && |server.domains| > 0) { continue; }
      var candidate := AddressOf(server);
      if candidate.None? { continue; }
      var host := names.hostOf(candidate.value);
      if host.Some? && host.value != "" && names.isIp(host.value) {
        assert FirstUsable(servers, names, i);
        return candidate.value;
      }
    }
    return BOOTSTRAP_FALLBACK;
  }

  // ── Where lookups are pinned in tunnel mode ────────────────────────────────

  /** A rule with no matcher but the network that names a target. */
  predicate PureCatchAll(rule: R.Rule) {
    rule.inboundTags.None? && rule.matchers == {} && !rule.target.Nowhere?
  }

  /** The target of the last such rule, else the proxy. */
  function LastCatchAll(rules: seq<R.Rule>): R.Target {
    if |rules| == 0 then R.PROXY
    else if PureCatchAll(rules[|rules| - 1]) then rules[|rules| - 1].target
    else LastCatchAll(rules[..|rules| - 1])
  }

  /** The last rule without inbound tags and matchers that has a target decides, else "proxy" (i == |rules|). */
  lemma {:induction false} LastCatchAllIs(rules: seq<R.Rule>, i: nat)
    requires i <= |rules|
    requires i < |rules| ==> rules[i].inboundTags == None && rules[i].matchers == {} && rules[i].target != R.Nowhere
    requires forall j | (if i < |rules| then i else -1) < j < |rules| ::
      rules[j].inboundTags != None || rules[j].matchers != {} || rules[j].target == R.Nowhere
    ensures LastCatchAll(rules) == if i < |rules| then rules[i].target else R.Outbound("proxy")
  {
    if |rules| > 0 && i != |rules| - 1 {
      LastCatchAllIs(rules[..|rules| - 1], if i < |rules| then i else |rules| - 1);
    }
  }

  function OutboundTag(target: R.Target): Option<string> {
    if target.Outbound? then Some(target.tag) else None
  }

  ghost predicate IsFreedomTag(outbounds: seq<OutboundView>, tag: Option<string>) {
    exists o <- outbounds :: o.protocol == Some("freedom") && o.tag == tag
  }

  ghost predicate FirstTaggedProxy(outbounds: seq<OutboundView>, i: nat) {
    && i < |outbounds| && Tagged(outbounds[i]) && IsProxy(outbounds[i])
    && forall j | 0 <= j < i :: !(Tagged(outbounds[j]) && IsProxy(outbounds[j]))
  }

  /** The last catch-all's target, replaced by the first tagged proxy when it would be a freedom outbound. */
  ghost predicate IsPinned(rules: seq<R.Rule>, outbounds: seq<OutboundView>, target: R.Target) {
    if IsFreedomTag(outbounds, OutboundTag(LastCatchAll(rules))) && exists i: nat :: FirstTaggedProxy(outbounds, i)
    then exists i: nat :: FirstTaggedProxy(outbounds, i) && target == R.Outbound(outbounds[i].tag.value)
    else target == LastCatchAll(rules)
  }

  /** _tunnel_target. */
  method TunnelTarget(rules: seq<R.Rule>, outbounds: seq<OutboundView>) returns (target: R.Target)
    ensures IsPinned(rules, outbounds, target)
  {
    target := R.PROXY;
    for i := 0 to |rules|
      invariant target == LastCatchAll(rules[..i])
    {
      assert rules[..i + 1][..i] == rules[..i];
      if PureCatchAll(rules[i]) {
        target := rules[i].target;
      }
    }
    assert rules[..|rules|] == rules;
    var freedom := set o | o in outbounds && o.protocol == Some("freedom") :: o.tag;
    assert OutboundTag(target) in freedom <==> IsFreedomTag(outbounds, OutboundTag(target));
    if OutboundTag(target) in freedom {
      for i := 0 to |outbounds|
        invariant forall j | 0 <= j < i :: !(Tagged(outbounds[j]) && IsProxy(outbounds[j]))
      {
        if Tagged(outbounds[i]) && IsProxy(outbounds[i]) {
          assert FirstTaggedProxy(outbounds, i);
          return R.Outbound(outbounds[i].tag.value);
        }
      }
    }
  }

  ghost predicate DistinctTags(outbounds: seq<OutboundView>) {
    forall i, j | 0 <= i < j < |outbounds| && Tagged(outbounds[i]) :: outbounds[i].tag != outbounds[j].tag
  }

  /** A default that is no freedom outbound stays. */
  lemma OtherDefaultStays(rules: seq<R.Rule>, outbounds: seq<OutboundView>, target: R.Target)
    requires IsPinned(rules, outbounds, target)
    requires
      match LastCatchAll(rules)
      case Outbound(tag) => forall o <- outbounds | o.protocol == Some("freedom") :: o.tag != Some(tag)
      case _ => forall o <- outbounds | o.protocol == Some("freedom") :: o.tag != None
    ensures target == LastCatchAll(rules)
  {}

  /** One that is gives way to the first proxy with a tag. */
  lemma ProxyForFreedom(
      rules: seq<R.Rule>, outbounds: seq<OutboundView>, target: R.Target, tag: string, freedom: OutboundView, i: nat)
    requires IsPinned(rules, outbounds, target) && LastCatchAll(rules) == R.Outbound(tag)
    requires freedom in outbounds && freedom.protocol == Some("freedom") && freedom.tag == Some(tag)
    requires i < |outbounds| && IsProxy(outbounds[i]) && outbounds[i].tag != None && outbounds[i].tag != Some("")
    requires forall j | 0 <= j < i && IsProxy(outbounds[j]) :: outbounds[j].tag == None || outbounds[j].tag == Some("")
    ensures target == R.Outbound(outbounds[i].tag.value)
  {
    forall j | 0 <= j < i ensures !(Tagged(outbounds[j]) && IsProxy(outbounds[j])) {
      assert IsProxy(outbounds[j]) ==> outbounds[j].tag == None || outbounds[j].tag == Some("");
    }
    assert FirstTaggedProxy(outbounds, i) by {
      assert Tagged(outbounds[i]);
    }
    assert IsFreedomTag(outbounds, Some(tag));
    var k: nat :| FirstTaggedProxy(outbounds, k) && target == R.Outbound(outbounds[k].tag.value);
    OneFirstTaggedProxy(outbounds, i, k);
  }

  lemma OneFirstTaggedProxy(outbounds: seq<OutboundView>, i: nat, k: nat)
    requires FirstTaggedProxy(outbounds, i) && FirstTaggedProxy(outbounds, k)
    ensures i == k
  {
    var p, q := outbounds[i], outbounds[k];
    assert Tagged(p) && IsProxy(p) && Tagged(q) && IsProxy(q);
  }

  /**
    Lookups are pinned to a freedom outbound only when the subscription's default
    is one and there is no tagged proxy to stand in, or its tag is not its own.
   */
  lemma PinnedToFreedomIff(rules: seq<R.Rule>, outbounds: seq<OutboundView>, target: R.Target)
    requires IsPinned(rules, outbounds, target)
    ensures target.Outbound? && IsFreedomTag(outbounds, Some(target.tag)) <==>
      && IsFreedomTag(outbounds, OutboundTag(LastCatchAll(rules)))
      && (forall i: nat :: FirstTaggedProxy(outbounds, i) ==> IsFreedomTag(outbounds, outbounds[i].tag))
      && (LastCatchAll(rules).Outbound? || exists i: nat :: FirstTaggedProxy(outbounds, i))
  {
    forall i: nat, j: nat | FirstTaggedProxy(outbounds, i) && FirstTaggedProxy(outbounds, j) ensures i == j {}
    if target.Outbound? {
      assert target == LastCatchAll(rules) ==> OutboundTag(LastCatchAll(rules)) == Some(target.tag);
    }
  }

  /** It does happen: a direct-by-default subscription whose only proxy outbound has no tag. */
  lemma UntaggedProxyPinsToFreedom(direct: R.Rule, proxy: OutboundView, freedom: OutboundView, target: R.Target)
    requires PureCatchAll(direct) && direct.target == R.Outbound("direct")
    requires IsProxy(proxy) && !Tagged(proxy) && freedom.protocol == Some("freedom") && freedom.tag == Some("direct")
    requires IsPinned([direct], [proxy, freedom], target)
    ensures target == R.Outbound("direct") && IsFreedomTag([proxy, freedom], Some("direct"))
  {
    var outbounds := [proxy, freedom];
    assert [direct][..0] == [];
    assert freedom in outbounds;
    forall i: nat ensures !FirstTaggedProxy(outbounds, i) {}
  }

  /** With distinct tags and a tagged proxy it never happens. */
  lemma PinnedTargetNeverFreedom(rules: seq<R.Rule>, outbounds: seq<OutboundView>, target: R.Target)
    requires IsPinned(rules, outbounds, target)
    requires DistinctTags(outbounds) && exists i: nat :: FirstTaggedProxy(outbounds, i)
    ensures target.Outbound? ==> !IsFreedomTag(outbounds, Some(target.tag))
  {
    if IsFreedomTag(outbounds, OutboundTag(LastCatchAll(rules))) {
      var i: nat :| FirstTaggedProxy(outbounds, i) && target == R.Outbound(outbounds[i].tag.value);
      forall o <- outbounds | o.protocol == Some("freedom") ensures o.tag != outbounds[i].tag {
        var j :| 0 <= j < |outbounds| && outbounds[j] == o;
      }
    }
  }

  // ── The merge ──────────────────────────────────────────────────────────────

  const DNS_DIRECT := OutboundView(Some("freedom"), Some("dns-direct"), NoSettings, Some(KILLSWITCH_MARK), None)
  const DNS_OUT := OutboundView(Some("dns"), Some("dns-out"), NoSettings, None, None)

  /** An outbound dictionary; mark and dialer live in its streamSettings. */
  class Outbound {
    const protocol: Option<string>
    const tag: Option<string>
    const settings: Settings
    var mark: Option<int>
    var dialer: Option<string>

    constructor (v: OutboundView)
      ensures View() == v
    {
      protocol, tag, settings, mark, dialer := v.protocol, v.tag, v.settings, v.mark, v.dialer;
    }

    function View(): OutboundView
      reads this
    {
      OutboundView(protocol, tag, settings, mark, dialer)
    }

    /** _set_mark. */
    method SetMark()
      modifies `mark
      ensures mark == Some(KILLSWITCH_MARK)
    {
      mark := Some(KILLSWITCH_MARK);
    }
  }

  function Views(outbounds: seq<Outbound>): seq<OutboundView>
    reads outbounds
  {
    seq(|outbounds|, i requires 0 <= i < |outbounds| reads outbounds => outbounds[i].View())
  }

  function Marked(o: OutboundView): OutboundView {
    if IsProxy(o) then o.(mark := Some(KILLSWITCH_MARK)) else o
  }

  predicate IsDns(o: OutboundView) {
    o.protocol == Some("dns")
  }

  /** A config file; only the parts the merge reads or changes. */
  class Config {
    var outbounds: seq<Outbound>
    var rules: seq<R.Rule>
    var dnsServers: seq<DnsServer>

    constructor (outbounds: seq<Outbound>, rules: seq<R.Rule>, dnsServers: seq<DnsServer>)
      ensures this.outbounds == outbounds && this.rules == rules && this.dnsServers == dnsServers
    {
      this.outbounds, this.rules, this.dnsServers := outbounds, rules, dnsServers;
    }
  }

  ghost predicate AllDifferent(outbounds: seq<Outbound>) {
    forall i, j | 0 <= i < j < |outbounds| :: outbounds[i] != outbounds[j]
  }

  /** copy.deepcopy of the outbound list. */
  method CopyOutbounds(source: seq<Outbound>) returns (copy: seq<Outbound>)
    ensures fresh(copy) && AllDifferent(copy)
    ensures Views(copy) == Views(source)
  {
    copy := [];
    for i := 0 to |source|
      invariant |copy| == i && fresh(copy) && AllDifferent(copy)
      invariant forall k | 0 <= k < i :: copy[k].View() == source[k].View()
    {
      var o := new Outbound(source[i].View());
      copy := copy + [o];
    }
  }

  /** The first loop over the outbounds: every proxy gets the mark, nothing else changes. */
  method MarkProxies(outbounds: seq<Outbound>)
    requires AllDifferent(outbounds)
    modifies outbounds
    ensures forall i | 0 <= i < |outbounds| :: outbounds[i].View() == Marked(old(outbounds[i].View()))
  {
    for i := 0 to |outbounds|
      invariant forall k | 0 <= k < i :: outbounds[k].View() == Marked(old(outbounds[k].View()))
      invariant forall k | i <= k < |outbounds| :: outbounds[k].View() == old(outbounds[k].View())
    {
      if IsProxy(outbounds[i].View()) {
        outbounds[i].SetMark();
      }
    }
  }

  /** The outbound that non-address lookups are chained through. */
  ghost predicate IsVia(outbounds: seq<OutboundView>, via: string) {
    if exists o <- outbounds :: IsProxy(o) && o.tag == Some("proxy") then via == "proxy"
    else exists i: nat :: FirstTaggedProxy(outbounds, i) && outbounds[i].tag == Some(via)
  }

  method ChooseVia(outbounds: seq<OutboundView>) returns (via: Option<string>)
    ensures via.None? <==> forall o <- outbounds :: !(IsProxy(o) && Tagged(o))
    ensures via.Some? ==> IsVia(outbounds, via.value)
  {
    via := None;
    for i := 0 to |outbounds|
      invariant forall o <- outbounds[..i] :: !(IsProxy(o) && o.tag == Some("proxy"))
      invariant via.None? <==> forall o <- outbounds[..i] :: !(IsProxy(o) && Tagged(o))
      invariant via.None? ==> forall j | 0 <= j < i :: !(Tagged(outbounds[j]) && IsProxy(outbounds[j]))
      invariant via.Some? ==> exists j: nat :: FirstTaggedProxy(outbounds, j) && outbounds[j].tag == via
    {
      assert outbounds[..i + 1] == outbounds[..i] + [outbounds[i]];
      if IsProxy(outbounds[i]) && Tagged(outbounds[i]) {
        if outbounds[i].tag == Some("proxy") { return Some("proxy"); }
        if via.None? {
          via := outbounds[i].tag;
          assert FirstTaggedProxy(outbounds, i);
        }
      }
    }
    assert outbounds[..|outbounds|] == outbounds;
  }

  /** The chained outbound: only its dialer changes, and only when it had none. */
  function Chained(o: OutboundView, via: Option<string>): OutboundView {
    if o.dialer.None? then o.(dialer := via) else o
  }

  function MarkAll(outbounds: seq<OutboundView>): seq<OutboundView> {
    seq(|outbounds|, i requires 0 <= i < |outbounds| => Marked(outbounds[i]))
  }

  /** dns-direct is appended, dns-out too when there is no dns outbound; the first dns outbound, d, is chained. */
  ghost predicate DnsAdded(before: seq<OutboundView>, after: seq<OutboundView>, via: Option<string>, d: nat) {
    var n := |before|;
    && |after| == n + 1 + (if d < n then 0 else 1) && d < |after| && d != n
    && (d < n ==> IsDns(before[d])) && (forall i | 0 <= i < n && i < d :: !IsDns(before[i]))
    && after[n] == DNS_DIRECT
    && after[d] == Chained(if d < n then before[d] else DNS_OUT, via)
    && forall i | 0 <= i < n && i != d :: after[i] == before[i]
  }

  ghost predicate IsChoice(outbounds: seq<OutboundView>, via: Option<string>) {
    && (via.None? <==> forall o <- outbounds :: !(IsProxy(o) && Tagged(o)))
    && (via.Some? ==> IsVia(outbounds, via.value))
  }

  /** What the merge makes of the outbounds. */
  ghost predicate MergedOutbounds(before: seq<OutboundView>, after: seq<OutboundView>) {
    exists via, d :: IsChoice(before, via) && DnsAdded(MarkAll(before), after, via, d)
  }

  method AddDnsOutbounds(outbounds: seq<Outbound>, via: Option<string>) returns (all: seq<Outbound>, ghost d: nat)
    requires AllDifferent(outbounds)
    modifies outbounds
    ensures |all| > |outbounds| && all[..|outbounds|] == outbounds && fresh(all[|outbounds|..])
    ensures DnsAdded(old(Views(outbounds)), Views(all), via, d)
  {
    ghost var before := Views(outbounds);
    var direct := new Outbound(DNS_DIRECT);
    all := outbounds + [direct];
    var dns := 0;
    while dns < |outbounds| && outbounds[dns].protocol != Some("dns")
      invariant dns <= |outbounds|
      invariant forall i | 0 <= i < dns :: !IsDns(before[i])
    {
      assert before[dns].protocol == outbounds[dns].protocol;
      dns := dns + 1;
    }
    if dns == |outbounds| {
      var dnsOut := new Outbound(DNS_OUT);
      all := all + [dnsOut];
      dns := |outbounds| + 1;
    }
    d := dns;
    var chained := all[dns];
    if chained.dialer.None? {
      chained.dialer := via;
    }
    assert all[..|outbounds|] == outbounds;
    assert forall i | 0 <= i < |all| :: Views(all)[i] == all[i].View();
  }

  /** The copy with its proxies marked. */
  method MarkedCopy(source: seq<Outbound>) returns (copy: seq<Outbound>)
    ensures fresh(copy) && AllDifferent(copy)
    ensures Views(copy) == MarkAll(Views(source))
  {
    copy := CopyOutbounds(source);
    assert forall i | 0 <= i < |copy| :: copy[i].View() == Views(copy)[i];
    MarkProxies(copy);
  }

  lemma MergedFrom(before: seq<OutboundView>, after: seq<OutboundView>, via: Option<string>, d: nat)
    requires IsChoice(before, via) && DnsAdded(MarkAll(before), after, via, d)
    ensures MergedOutbounds(before, after)
  {}

  /** The outbound half of the merge, on a copy. */
  method MergeOutbounds(source: seq<Outbound>) returns (all: seq<Outbound>)
    ensures fresh(all) && MergedOutbounds(Views(source), Views(all))
  {
    var via := ChooseVia(Views(source));
    ghost var before := Views(source);
    var copy := MarkedCopy(source);
    ghost var d;
    all, d := AddDnsOutbounds(copy, via);
    assert all == all[..|copy|] + all[|copy|..];
    MergedFrom(before, Views(all), via, d);
  }

  /** The dns section: the bootstrap resolver in front, limited to exactly the hosts given. */
  method BootstrapServers(servers: seq<DnsServer>, hosts: seq<string>, names: Names) returns (all: seq<DnsServer>)
    ensures BootstrapSection(servers, all, hosts, names)
  {
    if |hosts| == 0 { return servers; }
    var address := BootstrapResolver(servers, names);
    var domains := seq(|hosts|, i requires 0 <= i < |hosts| => "full:" + hosts[i]);
    all := [Entry(domains, Some(address), Some(BOOTSTRAP_TAG), true)] + servers;
  }

  ghost predicate MergedRules(rules: seq<R.Rule>, outbounds: seq<OutboundView>, merged: seq<R.Rule>, tunnelDns: bool) {
    exists target ::
      && IsPinned(R.Keep(rules), outbounds, target)
      && merged == R.Merge(rules, if tunnelDns then [R.DnsRule(target)] else [])
  }

  /** The subscription's own tags are distinct, it has a tagged proxy, and none is named like the merge's dns-direct. */
  ghost predicate WellTagged(outbounds: seq<OutboundView>) {
    && DistinctTags(outbounds)
    && (exists i: nat :: FirstTaggedProxy(outbounds, i))
    && forall o <- outbounds | IsProxy(o) :: o.tag != DNS_DIRECT.tag
  }

  /** The merge moves no proxy and adds none; dns-direct is the one freedom outbound it adds. */
  lemma MergedTags(before: seq<OutboundView>, after: seq<OutboundView>, i: nat)
    requires MergedOutbounds(before, after) && i < |after|
    ensures |before| < |after|
    ensures i < |before| ==> after[i].protocol == before[i].protocol && after[i].tag == before[i].tag
    ensures i >= |before| ==> after[i] == DNS_DIRECT || after[i].protocol == Some("dns")
  {
    MarksAfterMerge(before, after, i);
  }

  lemma FirstProxyStays(before: seq<OutboundView>, after: seq<OutboundView>, i: nat)
    requires MergedOutbounds(before, after) && FirstTaggedProxy(before, i)
    ensures FirstTaggedProxy(after, i)
  {
    MergedTags(before, after, 0);
    forall j | 0 <= j <= i
      ensures after[j].protocol == before[j].protocol && after[j].tag == before[j].tag
    {
      MergedTags(before, after, j);
    }
  }

  lemma FirstProxyTagIsOwn(before: seq<OutboundView>, after: seq<OutboundView>, i: nat)
    requires MergedOutbounds(before, after) && WellTagged(before) && FirstTaggedProxy(before, i)
    ensures i < |after| && !IsFreedomTag(after, after[i].tag)
  {
    FirstProxyStays(before, after, i);
    MergedTags(before, after, i);
    forall j | 0 <= j < |after| && after[j].protocol == Some("freedom") ensures after[j].tag != after[i].tag {
      MergedTags(before, after, j);
    }
  }

  /**
    Tunnel mode: whatever the rules say, all lookups of the built-in resolver go
    to one target, which is no freedom outbound when the subscription is well tagged.
   */
  lemma TunnelLookupsNeverDirect(
      rules: seq<R.Rule>, before: seq<OutboundView>, after: seq<OutboundView>, merged: seq<R.Rule>)
    requires MergedOutbounds(before, after) && MergedRules(rules, after, merged, true) && WellTagged(before)
    ensures exists target ::
      && IsPinned(R.Keep(rules), after, target)
      && (target.Outbound? ==> !IsFreedomTag(after, Some(target.tag)))
      && forall p: R.Packet | p.inbound == "dns-in" :: R.Route(merged, p) == Some(target)
  {
    var target :| IsPinned(R.Keep(rules), after, target) && merged == R.Merge(rules, [R.DnsRule(target)]);
    var i: nat :| FirstTaggedProxy(before, i);
    FirstProxyStays(before, after, i);
    FirstProxyTagIsOwn(before, after, i);
    PinnedToFreedomIff(R.Keep(rules), after, target);
    assert FirstTaggedProxy(after, i) && !IsFreedomTag(after, after[i].tag);
    forall p: R.Packet | p.inbound == "dns-in" ensures R.Route(merged, p) == Some(target) {
      R.LookupsGoToTarget(rules, target, p);
    }
  }

  ghost predicate ExactlyBootstrapHosts(outbounds: seq<OutboundView>, names: Names, hosts: seq<string>) {
    forall h :: h in hosts <==> IsBootstrapHost(outbounds, names, h)
  }

  /** build_runtime_config. The subscription's own config is left as it was: nothing allocated before changes. */
  method BuildRuntimeConfig(server: Config, tunnelDns: bool, names: Names) returns (cfg: Config)
    ensures fresh(cfg) && fresh(cfg.outbounds)
    ensures MergedOutbounds(Views(server.outbounds), Views(cfg.outbounds))
    ensures MergedRules(server.rules, Views(cfg.outbounds), cfg.rules, tunnelDns)
    ensures exists hosts ::
      && ExactlyBootstrapHosts(Views(server.outbounds), names, hosts)
      && BootstrapSection(server.dnsServers, cfg.dnsServers, hosts, names)
  {
    var hosts := BootstrapHosts(Views(server.outbounds), names);
    var dnsServers := BootstrapServers(server.dnsServers, hosts, names);
    var outbounds := MergeOutbounds(server.outbounds);
    var rules := R.Keep(server.rules);
    var target := TunnelTarget(rules, Views(outbounds));
    var dnsRules := if tunnelDns then [R.DnsRule(target)] else [];
    cfg := new Config(outbounds, R.LOCAL_RULES + dnsRules + rules + [R.CATCH_ALL], dnsServers);
  }

  ghost predicate BootstrapSection(before: seq<DnsServer>, after: seq<DnsServer>, hosts: seq<string>, names: Names) {
    if hosts == [] then after == before
    else
      && |after| == |before| + 1 && after[1..] == before
      && after[0].Entry? && after[0].tag == Some("dns-bootstrap") && after[0].skipFallback
      && |after[0].domains| == |hosts| && (forall i | 0 <= i < |hosts| :: after[0].domains[i] == "full:" + hosts[i])
      && after[0].entryAddress.Some? && IsBootstrapAddress(before, names, after[0].entryAddress.value)
      && (AddressedByIp(BOOTSTRAP_FALLBACK, names) ==> AddressedByIp(after[0].entryAddress.value, names))
  }

  /** Exactly the proxies and dns-direct carry the killswitch mark by the merge's doing. */
  lemma MarksAfterMerge(before: seq<OutboundView>, after: seq<OutboundView>, i: nat)
    requires MergedOutbounds(before, after) && i < |after|
    ensures i < |before| && before[i].protocol in {Some("freedom"), Some("blackhole"), Some("dns")} ==>
      after[i].mark == before[i].mark
    ensures i < |before| && before[i].protocol !in {Some("freedom"), Some("blackhole"), Some("dns")} ==>
      after[i].mark == Some(0x6B73)
    ensures i == |before| ==>
      after[i] == OutboundView(Some("freedom"), Some("dns-direct"), NoSettings, Some(0x6B73), None)
    ensures i > |before| ==>
      after[i].(dialer := None) == OutboundView(Some("dns"), Some("dns-out"), NoSettings, None, None)
    ensures i < |before| ==> after[i].(mark := before[i].mark, dialer := before[i].dialer) == before[i]
  {
    var via, d :| IsChoice(before, via) && DnsAdded(MarkAll(before), after, via, d);
    assert i < |before| ==> MarkAll(before)[i] == Marked(before[i]);
  }

  /** What lookups are chained through: "proxy" when a proxy has that tag, else the first tagged proxy. */
  ghost predicate IsDialer(before: seq<OutboundView>, via: Option<string>) {
    match via
    case None => forall o <- before | IsProxy(o) :: o.tag == None || o.tag == Some("")
    case Some("proxy") => exists i :: 0 <= i < |before| && IsProxy(before[i]) && before[i].tag == Some("proxy")
    case Some(tag) =>
      && tag != "" && (forall o <- before | IsProxy(o) :: o.tag != Some("proxy"))
      && exists i ::
           && 0 <= i < |before| && IsProxy(before[i]) && before[i].tag == Some(tag)
           && forall j | 0 <= j < i && IsProxy(before[j]) :: before[j].tag == None || before[j].tag == Some("")
  }

  lemma ChoiceIsDialer(before: seq<OutboundView>, via: Option<string>)
    requires IsChoice(before, via)
    ensures IsDialer(before, via)
  {
    if via.Some? && via.value != "proxy" {
      var i: nat :| FirstTaggedProxy(before, i) && before[i].tag == via;
      assert IsProxy(before[i]) && before[i].tag == via;
    }
  }

  /** A dialer is set on nothing but a dns outbound without one, the first of them or else dns-out. */
  lemma DialersAfterMerge(before: seq<OutboundView>, after: seq<OutboundView>) returns (via: Option<string>, d: nat)
    requires MergedOutbounds(before, after)
    ensures IsDialer(before, via) && d < |after| && after[d].protocol == Some("dns")
    ensures forall i | 0 <= i < |before| && i < d :: before[i].protocol != Some("dns")
    ensures after[d].dialer == if d < |before| && before[d].dialer.Some? then before[d].dialer else via
    ensures forall i | 0 <= i < |before| && i != d :: after[i].dialer == before[i].dialer
  {
    via, d :| IsChoice(before, via) && DnsAdded(MarkAll(before), after, via, d);
    ChoiceIsDialer(before, via);
    assert forall i | 0 <= i < |before| :: MarkAll(before)[i] == Marked(before[i]);
  }
}
