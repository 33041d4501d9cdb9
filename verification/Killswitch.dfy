/**
  The killswitch: the nft chain that the happ-killswitch script loads, the
  script's `on` command, and the Python side that decides which whitelist it is
  called with.
 */
module Killswitch {
  import opened Common
  import C = RuntimeConfig

  const XRAY_MARK := 0x6B73

  // ── The output chain ───────────────────────────────────────────────────────

  type Word = n: int | 0 <= n < 0x1_0000

  /** A destination: the four bytes of an IPv4 address, or the first 16 bits of an IPv6 one and the others. */
  datatype Address = V4(a: Byte, b: Byte, c: Byte, d: Byte) | V6(first: Word, rest: seq<Word>)

  datatype Proto = TcpProto | UdpProto | OtherProto

  datatype Packet = Packet(oif: string, mark: int, dst: Address, proto: Proto, dport: nat)

  /** The accept rules of the chain; its policy is drop. */
  datatype NftRule =
    | OutInterface(pattern: string)
    | MetaMark(mark: int)
    | DestPort(proto: Proto, port: nat)
    | DestAddress(text: string)
    | PrivateV4
    | MulticastV4
    | DhcpBroadcast
    | LocalV6

  /** How nft reads addresses and interface names; None and false make it refuse the whole table. */
  datatype Nft = Nft(parse: string -> Option<Address>, validInterface: string -> bool)

  predicate NameMatches(pattern: string, name: string) {
    if |pattern| > 0 && pattern[|pattern| - 1] == '*'
    then pattern[..|pattern| - 1] <= name
    else pattern == name
  }

  predicate Private(dst: Address) {
    dst.V4? && (dst.a == 10 || (dst.a == 172 && 16 <= dst.b < 32) || (dst.a == 192 && dst.b == 168)
                || (dst.a == 169 && dst.b == 254))
  }

  predicate Multicast(dst: Address) {
    dst.V4? && 224 <= dst.a < 240
  }

  predicate LinkLocalOrMulticast6(dst: Address) {
    dst.V6? && (0xFE80 <= dst.first <= 0xFEBF || 0xFF00 <= dst.first <= 0xFFFF)
  }

  predicate RuleAccepts(rule: NftRule, p: Packet, nft: Nft) {
    match rule
    case OutInterface(pattern) => NameMatches(pattern, p.oif)
    case MetaMark(mark) => p.mark == mark
    case DestPort(proto, port) => p.proto == proto && p.dport == port
    case DestAddress(text) => nft.parse(text) == Some(p.dst)
    case PrivateV4 => Private(p.dst)
    case MulticastV4 => Multicast(p.dst)
    case DhcpBroadcast => p.dst == V4(255, 255, 255, 255) && p.proto.UdpProto? && p.dport == 67
    case LocalV6 => LinkLocalOrMulticast6(p.dst)
  }

  /** First match over accept rules, with policy drop. */
  predicate Accepts(chain: seq<NftRule>, p: Packet, nft: Nft) {
    |chain| > 0 && (RuleAccepts(chain[0], p, nft) || Accepts(chain[1..], p, nft))
  }

  function AddressRules(ips: seq<string>): seq<NftRule> {
    seq(|ips|, i requires 0 <= i < |ips| => DestAddress(ips[i]))
  }

  function InterfaceRules(names: seq<string>): seq<NftRule> {
    seq(|names|, i requires 0 <= i < |names| => OutInterface(names[i]))
  }

  /** The table text of `on`, as rules. */
  function Chain(ips: seq<string>, ifaces: seq<string>): seq<NftRule> {
    HEAD + InterfaceRules(ifaces) + DNS_PORTS + AddressRules(ips) + TAIL
  }

  const HEAD := [OutInterface("lo"), MetaMark(XRAY_MARK), OutInterface("happ-*")]
  const DNS_PORTS := [DestPort(UdpProto, 53), DestPort(TcpProto, 53)]
  const TAIL := [PrivateV4, MulticastV4, DhcpBroadcast, LocalV6]

  predicate Loads(chain: seq<NftRule>, nft: Nft) {
    forall r <- chain ::
      && (r.DestAddress? ==> nft.parse(r.text).Some?)
      && (r.OutInterface? ==> nft.validInterface(r.pattern))
  }

  lemma {:induction false} AcceptsIff(chain: seq<NftRule>, p: Packet, nft: Nft)
    ensures Accepts(chain, p, nft) <==> exists r <- chain :: RuleAccepts(r, p, nft)
  {
    if |chain| > 0 {
      AcceptsIff(chain[1..], p, nft);
      assert chain == [chain[0]] + chain[1..];
    }
  }

  /** An IPv4 address as the 32-bit number it is. */
  function Number(dst: Address): nat
    requires dst.V4?
  {
    ((dst.a * 256 + dst.b) * 256 + dst.c) * 256 + dst.d
  }

  /**
    The destinations that need no whitelisting: 10/8, 172.16/12, 192.168/16,
    169.254/16, multicast 224/4, and in IPv6 fe80::/10 and ff00::/8, as the top
    bits of the address.
   */
  predicate StaysNear(dst: Address) {
    if dst.V4? then
      var n := Number(dst);
      || n / 0x100_0000 == 0x0A || n / 0x10_0000 == 0xAC1 || n / 0x1_0000 == 0xC0A8 || n / 0x1_0000 == 0xA9FE
      || n / 0x1000_0000 == 0xE
    else dst.first / 0x40 == 0x3FA || dst.first / 0x100 == 0xFF
  }

  /** What the rules test byte by byte are these ranges. */
  lemma StaysNearIff(dst: Address)
    ensures Private(dst) || Multicast(dst) || LinkLocalOrMulticast6(dst) <==> StaysNear(dst)
    ensures Private(dst) <==> StaysNear(dst) && dst.V4? && Number(dst) / 0x1000_0000 != 0xE
    ensures Multicast(dst) <==> StaysNear(dst) && dst.V4? && Number(dst) / 0x1000_0000 == 0xE
  {
    if dst.V4? {
      TopBits(dst);
    }
  }

  lemma TopBits(dst: Address)
    requires dst.V4?
    ensures Number(dst) / 0x1_0000 == dst.a * 256 + dst.b && Number(dst) / 0x100_0000 == dst.a
    ensures Number(dst) / 0x10_0000 == dst.a * 16 + dst.b / 16 && Number(dst) / 0x1000_0000 == dst.a / 16
  {}

  /** How an interface name in a rule is read: as it is, or up to a star at its end. */
  lemma NameMatchesIff(pattern: string, name: string)
    ensures NameMatches(pattern + "*", name) <==> pattern <= name
    ensures pattern == "" || pattern[|pattern| - 1] != '*' ==> (NameMatches(pattern, name) <==> pattern == name)
  {
    assert (pattern + "*")[..|pattern|] == pattern;
  }

  /** Everything the killswitch lets out, and nothing else. */
  lemma ChainAcceptsIff(ips: seq<string>, ifaces: seq<string>, p: Packet, nft: Nft)
    ensures Accepts(Chain(ips, ifaces), p, nft) <==>
      || p.mark == 0x6B73
      || p.oif == "lo" || "happ-" <= p.oif || (exists i <- ifaces :: NameMatches(i, p.oif))
      || (p.dport == 53 && (p.proto.TcpProto? || p.proto.UdpProto?))
      || (exists ip <- ips :: nft.parse(ip) == Some(p.dst))
      || StaysNear(p.dst)
      || (p.dst == V4(255, 255, 255, 255) && p.proto.UdpProto? && p.dport == 67)
  {
    var i, a := InterfaceRules(ifaces), AddressRules(ips);
    AcceptsAppend(HEAD + i + DNS_PORTS + a, TAIL, p, nft);
    AcceptsAppend(HEAD + i + DNS_PORTS, a, p, nft);
    AcceptsAppend(HEAD + i, DNS_PORTS, p, nft);
    AcceptsAppend(HEAD, i, p, nft);
    AcceptsIff(i, p, nft);
    AcceptsIff(a, p, nft);
    ListsAccept(ips, ifaces, p, nft);
    FixedRulesAccept(p, nft);
    StaysNearIff(p.dst);
  }

  lemma {:induction false} AcceptsAppend(a: seq<NftRule>, b: seq<NftRule>, p: Packet, nft: Nft)
    ensures Accepts(a + b, p, nft) <==> Accepts(a, p, nft) || Accepts(b, p, nft)
  {
    if |a| > 0 {
      AcceptsAppend(a[1..], b, p, nft);
      assert (a + b)[1..] == a[1..] + b;
    } else {
      assert a + b == b;
    }
  }

  lemma FixedRulesAccept(p: Packet, nft: Nft)
    ensures Accepts(HEAD, p, nft) <==> p.oif == "lo" || p.mark == 0x6B73 || "happ-" <= p.oif
    ensures Accepts(DNS_PORTS, p, nft) <==> p.dport == 53 && (p.proto.TcpProto? || p.proto.UdpProto?)
    ensures Accepts(TAIL, p, nft) <==>
      || Private(p.dst) || Multicast(p.dst) || LinkLocalOrMulticast6(p.dst)
      || (p.dst == V4(255, 255, 255, 255) && p.proto.UdpProto? && p.dport == 67)
  {
    assert "happ-*"[..5] == "happ-";
    AcceptsPair(MetaMark(XRAY_MARK), OutInterface("happ-*"), p, nft);
    assert HEAD[1..] == [MetaMark(XRAY_MARK), OutInterface("happ-*")];
    AcceptsPair(DNS_PORTS[0], DNS_PORTS[1], p, nft);
    assert DNS_PORTS == [DNS_PORTS[0], DNS_PORTS[1]];
    AcceptsPair(PrivateV4, MulticastV4, p, nft);
    AcceptsPair(DhcpBroadcast, LocalV6, p, nft);
    AcceptsAppend([PrivateV4, MulticastV4], [DhcpBroadcast, LocalV6], p, nft);
    assert TAIL == [PrivateV4, MulticastV4] + [DhcpBroadcast, LocalV6];
  }

  lemma AcceptsPair(a: NftRule, b: NftRule, p: Packet, nft: Nft)
    ensures Accepts([a, b], p, nft) <==> RuleAccepts(a, p, nft) || RuleAccepts(b, p, nft)
  {
    var one, two := [b], [a, b];
    assert two[1..] == one && one[1..] == [];
    assert Accepts(one, p, nft) <==> RuleAccepts(b, p, nft);
    assert Accepts(two, p, nft) <==> RuleAccepts(a, p, nft) || Accepts(two[1..], p, nft);
  }

  lemma ListsAccept(ips: seq<string>, ifaces: seq<string>, p: Packet, nft: Nft)
    ensures (exists r <- InterfaceRules(ifaces) :: RuleAccepts(r, p, nft)) <==>
      exists i <- ifaces :: NameMatches(i, p.oif)
    ensures (exists r <- AddressRules(ips) :: RuleAccepts(r, p, nft)) <==>
      exists ip <- ips :: nft.parse(ip) == Some(p.dst)
  {
    forall i <- ifaces ensures OutInterface(i) in InterfaceRules(ifaces) {
      var k :| 0 <= k < |ifaces| && ifaces[k] == i;
      assert InterfaceRules(ifaces)[k] == OutInterface(i);
    }
    forall ip <- ips ensures DestAddress(ip) in AddressRules(ips) {
      var k :| 0 <= k < |ips| && ips[k] == ip;
      assert AddressRules(ips)[k] == DestAddress(ip);
    }
    forall i <- ifaces | NameMatches(i, p.oif) ensures RuleAccepts(OutInterface(i), p, nft) {}
    forall ip <- ips | nft.parse(ip) == Some(p.dst) ensures RuleAccepts(DestAddress(ip), p, nft) {}
  }

  /** Without the mark, off the allowed interfaces, to a public unlisted address and no name lookup: dropped. */
  lemma UnmarkedPublicDropped(ips: seq<string>, ifaces: seq<string>, p: Packet, nft: Nft)
    requires p.mark != 0x6B73 && p.dst.V4? && (p.dport != 53 || p.proto.OtherProto?)
    requires p.oif != "lo" && !("happ-" <= p.oif) && forall i <- ifaces :: !NameMatches(i, p.oif)
    requires forall ip <- ips :: nft.parse(ip) != Some(p.dst)
    requires
      var n := ((p.dst.a * 256 + p.dst.b) * 256 + p.dst.c) * 256 + p.dst.d;
      && n / 0x100_0000 != 0x0A && n / 0x10_0000 != 0xAC1 && n / 0x1_0000 != 0xC0A8 && n / 0x1_0000 != 0xA9FE
      && n / 0x1000_0000 != 0xE && n != 0xFFFF_FFFF
    ensures !Accepts(Chain(ips, ifaces), p, nft)
  {
    ChainAcceptsIff(ips, ifaces, p, nft);
  }

  /** The same in IPv6, outside fe80::/10 and ff00::/8. */
  lemma UnmarkedPublicDropped6(ips: seq<string>, ifaces: seq<string>, p: Packet, nft: Nft)
    requires p.mark != 0x6B73 && p.dst.V6? && (p.dport != 53 || p.proto.OtherProto?)
    requires p.oif != "lo" && !("happ-" <= p.oif) && forall i <- ifaces :: !NameMatches(i, p.oif)
    requires forall ip <- ips :: nft.parse(ip) != Some(p.dst)
    requires p.dst.first / 0x40 != 0x3FA && p.dst.first / 0x100 != 0xFF
    ensures !Accepts(Chain(ips, ifaces), p, nft)
  {
    ChainAcceptsIff(ips, ifaces, p, nft);
  }

  /**
    The merge and the chain together: what a proxy outbound or dns-direct of a
    merged config sends passes whatever its destination; what any other outbound
    sends passes only if it would without the mark, unless the subscription set
    that very mark itself.
   */
  lemma MergedTrafficPasses(before: seq<C.OutboundView>, after: seq<C.OutboundView>, i: nat,
                            ips: seq<string>, ifaces: seq<string>, p: Packet, nft: Nft)
    requires C.MergedOutbounds(before, after) && i < |after|
    requires p.mark == if after[i].mark.Some? then after[i].mark.value else 0
    ensures i == |before| || (i < |before| && C.IsProxy(before[i])) ==> Accepts(Chain(ips, ifaces), p, nft)
    ensures i > |before| || (i < |before| && !C.IsProxy(before[i]) && before[i].mark != Some(0x6B73)) ==>
      (Accepts(Chain(ips, ifaces), p, nft) <==> Accepts(Chain(ips, ifaces), p.(mark := 0), nft))
  {
    C.MarksAfterMerge(before, after, i);
    ChainAcceptsIff(ips, ifaces, p, nft);
    ChainAcceptsIff(ips, ifaces, p.(mark := 0), nft);
  }

  // ── The script ─────────────────────────────────────────────────────────────

  predicate Blank(c: char) {
    c in {' ', '\t', '\n'}
  }

  /** Up to the first blank. */
  function FirstWord(s: string): (w: string)
    ensures |w| <= |s| && w == s[..|w|]
  {
    if s == "" || Blank(s[0]) then "" else [s[0]] + FirstWord(s[1..])
  }

  /** How the shell splits an unquoted $ips. */
  function Words(s: string): seq<string> {
    if s == "" then []
    else if Blank(s[0]) then Words(s[1..])
    else
      var w := FirstWord(s);
      assert w[0] == s[0];
      [w] + Words(s[|w|..])
  }

  lemma {:induction false} FirstWordStops(a: string, c: char, b: string)
    requires Blank(c)
    ensures FirstWord(a + [c] + b) == FirstWord(a)
  {
    if a != "" && !Blank(a[0]) {
      FirstWordStops(a[1..], c, b);
      assert (a + [c] + b)[1..] == a[1..] + [c] + b;
    }
  }

  lemma WordInFront(a: string, c: char, b: string)
    requires Blank(c) && a != "" && !Blank(a[0])
    ensures var w := FirstWord(a);
      && 0 < |w| <= |a| && Words(a) == [w] + Words(a[|w|..])
      && Words(a + [c] + b) == [w] + Words(a[|w|..] + [c] + b)
  {
    FirstWordStops(a, c, b);
    var w := FirstWord(a);
    assert w[0] == a[0];
    assert (a + [c] + b)[|w|..] == a[|w|..] + [c] + b;
  }

  lemma {:induction false} WordsSplit(a: string, c: char, b: string)
    requires c in {' ', '\t', '\n'}
    ensures Words(a + [c] + b) == Words(a) + Words(b)
    decreases |a|
  {
    var s := a + [c] + b;
    if a == "" {
      assert s[1..] == b;
    } else if Blank(a[0]) {
      WordsSplit(a[1..], c, b);
      assert s[1..] == a[1..] + [c] + b;
    } else {
      var w := FirstWord(a);
      WordsSplit(a[|w|..], c, b);
      WordInFront(a, c, b);
    }
  }

  /** The words of a list of arguments, one argument after the other. */
  function AllWords(args: seq<string>): seq<string> {
    if |args| == 0 then [] else AllWords(args[..|args| - 1]) + Words(args[|args| - 1])
  }

  /** The options of `on`: extra addresses, allowed interfaces, and whether the saved addresses count. */
  datatype Options = Options(extra: seq<string>, ifaces: seq<string>, useConf: bool)

  /** The meaning of an argument list; None when --iface lacks its name. */
  function Meaning(args: seq<string>, o: Options): Option<Options>
    decreases |args|
  {
    if |args| == 0 then Some(o)
    else if args[0] == "--iface" then
      if |args| < 2 then None else Meaning(args[2..], o.(ifaces := o.ifaces + [args[1]]))
    else if args[0] == "--no-conf" then Meaning(args[1..], o.(useConf := false))
    else Meaning(args[1..], o.(extra := o.extra + [args[0]]))
  }

  /** One argument or pair of arguments more, for every kind there is. */
  lemma {:induction false} OneOptionMore(args: seq<string>, x: string, o: Options)
    requires Meaning(args, o).Some?
    ensures
      var m := Meaning(args, o).value;
      && Meaning(args + ["--no-conf"], o) == Some(m.(useConf := false))
      && Meaning(args + ["--iface", x], o) == Some(m.(ifaces := m.ifaces + [x]))
      && Meaning(args + ["--iface"], o) == None
      && (x != "--iface" && x != "--no-conf" ==> Meaning(args + [x], o) == Some(m.(extra := m.extra + [x])))
    decreases |args|
  {
    if |args| == 0 {
      assert args + [x] == [x] && [x][1..] == [] && args + ["--no-conf"] == ["--no-conf"] && ["--no-conf"][1..] == [];
      assert args + ["--iface", x] == ["--iface", x] && ["--iface", x][2..] == [] && args + ["--iface"] == ["--iface"];
    } else {
      var n := if args[0] == "--iface" then 2 else 1;
      var o' :=
        if args[0] == "--iface" then o.(ifaces := o.ifaces + [args[1]])
        else if args[0] == "--no-conf" then o.(useConf := false)
        else o.(extra := o.extra + [args[0]]);
      OneOptionMore(args[n..], x, o');
      assert (args + [x])[n..] == args[n..] + [x] && (args + ["--no-conf"])[n..] == args[n..] + ["--no-conf"];
      assert (args + ["--iface"])[n..] == args[n..] + ["--iface"];
      assert (args + ["--iface", x])[n..] == args[n..] + ["--iface", x];
    }
  }

  /** An address as a resolver prints it: one word that is no option. */
  predicate IsAddressText(s: string) {
    s != "" && (forall c <- s :: !Blank(c)) && s[0] != '-'
  }

  lemma {:induction false} PlainArguments(args: seq<string>, rest: seq<string>, o: Options)
    requires forall a <- args :: IsAddressText(a)
    ensures Meaning(args + rest, o) == Meaning(rest, o.(extra := o.extra + args))
    decreases |args|
  {
    if |args| > 0 {
      assert args[0] in args && (args + rest)[1..] == args[1..] + rest;
      PlainArguments(args[1..], rest, o.(extra := o.extra + [args[0]]));
      assert o.extra + [args[0]] + args[1..] == o.extra + args;
    } else {
      assert args + rest == rest && o.extra + args == o.extra;
    }
  }

  /** The whitelist of `on`: the saved addresses when they count, then the arguments. */
  function Whitelist(o: Options, conf: Option<string>): seq<string> {
    (if o.useConf && conf.Some? then Words(conf.value) else []) + AllWords(o.extra)
  }

  datatype Outcome = Done | Usage | EmptyWhitelist | Refused

  /** What `on` does to the table for an argument list of the given meaning. */
  ghost predicate OnDid(o: Option<Options>, r: Outcome, conf: Option<string>, nft: Nft,
                        before: Option<seq<NftRule>>, after: Option<seq<NftRule>>) {
    match r
    case Usage => o.None? && after == before
    case EmptyWhitelist => o.Some? && Whitelist(o.value, conf) == [] && after == before
    case Refused => o.Some? && after.None? && !Loads(Chain(Whitelist(o.value, conf), o.value.ifaces), nft)
    case Done =>
      o.Some? && after == Some(Chain(Whitelist(o.value, conf), o.value.ifaces)) && Loads(after.value, nft)
  }

  /** With a table loaded, `on` ends without any table exactly when it gets to the new one and nft refuses it. */
  lemma OnLeavesNoTableIff(o: Option<Options>, r: Outcome, conf: Option<string>, nft: Nft,
                           before: Option<seq<NftRule>>, after: Option<seq<NftRule>>)
    requires OnDid(o, r, conf, nft, before, after) && before.Some?
    ensures after.None? <==>
      && o.Some? && !r.EmptyWhitelist?
      && !(&& nft.validInterface("lo") && nft.validInterface("happ-*")
           && (forall name <- o.value.ifaces :: nft.validInterface(name))
           && (forall ip <- Whitelist(o.value, conf) :: nft.parse(ip).Some?))
    ensures after.Some? ==> after == before || after == Some(Chain(Whitelist(o.value, conf), o.value.ifaces))
  {
    if o.Some? {
      LoadsIff(Whitelist(o.value, conf), o.value.ifaces, nft);
    }
  }

  lemma LoadsIff(ips: seq<string>, ifaces: seq<string>, nft: Nft)
    ensures Loads(Chain(ips, ifaces), nft) <==>
      && nft.validInterface("lo") && nft.validInterface("happ-*")
      && (forall name <- ifaces :: nft.validInterface(name))
      && (forall ip <- ips :: nft.parse(ip).Some?)
  {
    var chain := Chain(ips, ifaces);
    assert HEAD[0] in chain && HEAD[2] in chain;
    forall name <- ifaces ensures OutInterface(name) in chain {
      var i :| 0 <= i < |ifaces| && ifaces[i] == name;
      assert InterfaceRules(ifaces)[i] in chain;
    }
    forall ip <- ips ensures DestAddress(ip) in chain {
      var i :| 0 <= i < |ips| && ips[i] == ip;
      assert AddressRules(ips)[i] in chain;
    }
  }

  /** Such a run: one --iface name that nft does not accept, among whatever else is asked for. */
  lemma RefusedInterfaceLeavesNoTable(o: Options, name: string, r: Outcome, conf: Option<string>, nft: Nft,
                                      before: Option<seq<NftRule>>, after: Option<seq<NftRule>>)
    requires OnDid(Some(o), r, conf, nft, before, after) && before.Some? && Whitelist(o, conf) != []
    requires name in o.ifaces && !nft.validInterface(name)
    ensures after.None?
  {
    var i :| 0 <= i < |o.ifaces| && o.ifaces[i] == name;
    var rule := InterfaceRules(o.ifaces)[i];
    assert rule in Chain(Whitelist(o, conf), o.ifaces);
    assert !Loads(Chain(Whitelist(o, conf), o.ifaces), nft);
  }

  lemma OneArgumentMore(ips: string, saved: seq<string>, extra: seq<string>, i: nat)
    requires i < |extra| && Words(ips) == saved + AllWords(extra[..i])
    ensures Words(ips + " " + extra[i]) == saved + AllWords(extra[..i + 1])
  {
    assert extra[..i + 1][..i] == extra[..i];
    WordsSplit(ips, ' ', extra[i]);
  }

  lemma LeadingBlank(ips: string)
    requires ips != "" && Blank(ips[0])
    ensures Words(ips[1..]) == Words(ips)
  {}

  /** The system state the script works on: the loaded table and SERVER_IPS of the conf file. */
  class Firewall {
    const nft: Nft
    var table: Option<seq<NftRule>>
    var conf: Option<string>

    constructor (nft: Nft, conf: Option<string>)
      ensures table.None? && this.conf == conf && this.nft == nft
    {
      this.nft, this.conf, table := nft, conf, None;
    }

    /** The while loop over the arguments. */
    static method Parse(args: seq<string>) returns (o: Option<Options>)
      ensures o == Meaning(args, Options([], [], true))
    {
      var rest := args;
      var options := Options([], [], true);
      while |rest| > 0
        invariant Meaning(args, Options([], [], true)) == Meaning(rest, options)
        decreases |rest|
      {
        if rest[0] == "--iface" {
          if |rest| < 2 { return None; }
          options := options.(ifaces := options.ifaces + [rest[1]]);
          rest := rest[2..];
        } else if rest[0] == "--no-conf" {
          options := options.(useConf := false);
          rest := rest[1..];
        } else {
          options := options.(extra := options.extra + [rest[0]]);
          rest := rest[1..];
        }
      }
      return Some(options);
    }

    /** The string the script accumulates, and its words. */
    method Gather(o: Options) returns (ips: string)
      ensures Words(ips) == Whitelist(o, conf)
      ensures ips == "" ==> Whitelist(o, conf) == []
    {
      ips := if o.useConf && conf.Some? then conf.value else "";
      ghost var saved := Words(ips);
      for i := 0 to |o.extra|
        invariant Words(ips) == saved + AllWords(o.extra[..i])
      {
        OneArgumentMore(ips, saved, o.extra, i);
        ips := ips + " " + o.extra[i];
      }
      assert o.extra[..|o.extra|] == o.extra;
      if |ips| > 0 && ips[0] == ' ' {
        LeadingBlank(ips);
        ips := ips[1..];
      }
    }

    /**
      on. The old table is deleted before the new one is loaded: a table nft
      refuses leaves none at all, while a usage error leaves the old one.
     */
    method On(args: seq<string>) returns (r: Outcome)
      modifies `table
      ensures OnDid(Meaning(args, Options([], [], true)), r, conf, nft, old(table), table)
    {
      var o := Parse(args);
      if o.None? { return Usage; }
      var ips := Gather(o.value);
      if ips == "" { return EmptyWhitelist; }
      var chain := Chain(Words(ips), o.value.ifaces);
      table := None;
      if !Loads(chain, nft) { return Refused; }
      table := Some(chain);
      return Done;
    }

    method Off()
      modifies `table
      ensures table.None?
    {
      table := None;
    }

    /** detect: found is what ss shows; nothing found leaves the saved addresses alone. */
    method Detect(found: Option<string>) returns (ok: bool)
      modifies `conf
      ensures ok == found.Some? && conf == if ok then found else old(conf)
    {
      if found.None? { return false; }
      conf := found;
      return true;
    }
  }

  // ── The Python side ────────────────────────────────────────────────────────

  datatype Mode = ModeOff | ModeHapp | ModeAll

  /** IPv4 address of a host, when it resolves. */
  type Resolver = string -> Option<string>

  /** The order of sorted() on strings. */
  predicate Before(a: string, b: string) {
    if b == "" then false
    else if a == "" then true
    else if a[0] != b[0] then a[0] < b[0]
    else Before(a[1..], b[1..])
  }

  lemma {:induction false} BeforeIsTotal(a: string, b: string)
    ensures Before(a, b) || Before(b, a) || a == b
    ensures !(Before(a, b) && Before(b, a)) && !Before(a, a)
    decreases |a|
  {
    if a != "" {
      if b != "" && a[0] == b[0] {
        BeforeIsTotal(a[1..], b[1..]);
        assert a == [a[0]] + a[1..] && b == [b[0]] + b[1..];
      }
      BeforeIsTotal(a[1..], a[1..]);
    }
  }

  lemma {:induction false} BeforeIsTransitive(a: string, b: string, c: string)
    requires Before(a, b) && Before(b, c)
    ensures Before(a, c)
    decreases |a|
  {
    if a != "" && a[0] == b[0] && b[0] == c[0] {
      BeforeIsTransitive(a[1..], b[1..], c[1..]);
    }
  }

  /** Strictly increasing, hence without repeats. */
  ghost predicate Increasing(s: seq<string>) {
    forall i, j | 0 <= i < j < |s| :: Before(s[i], s[j])
  }

  /** One more element of the set, at its place in the order. */
  function Insert(s: seq<string>, x: string): seq<string> {
    if |s| == 0 then [x]
    else if x == s[0] then s
    else if Before(x, s[0]) then [x] + s
    else [s[0]] + Insert(s[1..], x)
  }

  lemma {:induction false} InsertKeepsOrder(s: seq<string>, x: string)
    requires Increasing(s)
    ensures Increasing(Insert(s, x))
    ensures forall y :: y in Insert(s, x) <==> y in s || y == x
  {
    if |s| > 0 {
      if x != s[0] && Before(x, s[0]) {
        FrontKeepsOrder(x, s);
      } else if x != s[0] {
        assert Increasing(s[1..]);
        InsertKeepsOrder(s[1..], x);
        BeforeIsTotal(x, s[0]);
        assert s == [s[0]] + s[1..];
        forall y | y in Insert(s[1..], x) ensures Before(s[0], y) {
          if y != x {
            var i :| 0 <= i < |s| - 1 && s[1..][i] == y;
            assert Before(s[0], s[i + 1]);
          }
        }
        assert forall j | 0 < j < |Insert(s, x)| :: Insert(s, x)[j] == Insert(s[1..], x)[j - 1];
      }
    }
  }

  lemma FrontKeepsOrder(x: string, s: seq<string>)
    requires Increasing(s) && |s| > 0 && Before(x, s[0])
    ensures Increasing([x] + s)
  {
    forall j | 0 <= j < |s| ensures Before(x, s[j]) {
      if j > 0 {
        BeforeIsTransitive(x, s[0], s[j]);
      }
    }
  }

  lemma IncreasingIsDistinct(s: seq<string>)
    requires Increasing(s)
    ensures forall i, j | 0 <= i < j < |s| :: s[i] != s[j]
  {
    forall i, j | 0 <= i < j < |s| ensures s[i] != s[j] {
      BeforeIsTotal(s[i], s[j]);
    }
  }

  /** resolve_endpoint_ips: the addresses of the hosts that resolve, sorted and each once. */
  method ResolveEndpointIps(hosts: seq<string>, resolve: Resolver) returns (ips: seq<string>)
    ensures forall ip :: ip in ips <==> exists h <- hosts :: resolve(h) == Some(ip)
    ensures Increasing(ips) && forall i, j | 0 <= i < j < |ips| :: ips[i] != ips[j]
  {
    ips := [];
    for i := 0 to |hosts|
      invariant forall ip :: ip in ips <==> exists h <- hosts[..i] :: resolve(h) == Some(ip)
      invariant Increasing(ips)
    {
      assert hosts[..i + 1] == hosts[..i] + [hosts[i]];
      var ip := resolve(hosts[i]);
      if ip.Some? {
        InsertKeepsOrder(ips, ip.value);
        ips := Insert(ips, ip.value);
      }
    }
    assert hosts[..|hosts|] == hosts;
    IncreasingIsDistinct(ips);
  }

  lemma {:induction false} OneWord(s: string)
    requires s != "" && forall i | 0 <= i < |s| :: s[i] != ' ' && s[i] != '\t' && s[i] != '\n'
    ensures FirstWord(s) == s && Words(s) == [s]
  {
    if |s| > 1 {
      OneWord(s[1..]);
    }
    assert s[|s|..] == "";
  }

  lemma {:induction false} AddressesAreWords(ips: seq<string>)
    requires forall ip <- ips :: IsAddressText(ip)
    ensures AllWords(ips) == ips
  {
    if |ips| > 0 {
      AddressesAreWords(ips[..|ips| - 1]);
      var last := ips[|ips| - 1];
      assert last in ips;
      forall i | 0 <= i < |last| ensures last[i] != ' ' && last[i] != '\t' && last[i] != '\n' {
        assert !Blank(last[i]);
      }
      OneWord(last);
    }
  }

  function InterfaceArgs(ifaces: seq<string>): seq<string> {
    if |ifaces| == 0 then [] else InterfaceArgs(ifaces[..|ifaces| - 1]) + ["--iface", ifaces[|ifaces| - 1]]
  }

  /** The argument list enable builds. */
  function EnableArgs(ips: seq<string>, ifaces: seq<string>, complete: bool): seq<string> {
    (if complete then ["--no-conf"] else []) + ips + InterfaceArgs(ifaces)
  }

  /** The same list as enable appends it, option by option. */
  method BuildArgs(ips: seq<string>, ifaces: seq<string>, complete: bool) returns (args: seq<string>)
    ensures args == EnableArgs(ips, ifaces, complete)
  {
    args := if complete then ["--no-conf"] + ips else ips;
    NoInterfaceYet(ips, ifaces, complete);
    for i := 0 to |ifaces|
      invariant args == EnableArgs(ips, ifaces[..i], complete)
    {
      OneInterfaceMore(ips, ifaces, complete, i);
      args := args + ["--iface", ifaces[i]];
    }
    assert ifaces[..|ifaces|] == ifaces;
  }

  lemma NoInterfaceYet(ips: seq<string>, ifaces: seq<string>, complete: bool)
    ensures EnableArgs(ips, ifaces[..0], complete) == if complete then ["--no-conf"] + ips else ips
  {}

  lemma OneInterfaceMore(ips: seq<string>, ifaces: seq<string>, complete: bool, i: nat)
    requires i < |ifaces|
    ensures EnableArgs(ips, ifaces[..i + 1], complete)
         == EnableArgs(ips, ifaces[..i], complete) + ["--iface", ifaces[i]]
  {
    assert ifaces[..i + 1][..i] == ifaces[..i];
  }

  lemma {:induction false} InterfaceArguments(ifaces: seq<string>, rest: seq<string>, o: Options)
    ensures Meaning(InterfaceArgs(ifaces) + rest, o) == Meaning(rest, o.(ifaces := o.ifaces + ifaces))
    decreases |ifaces|
  {
    if |ifaces| > 0 {
      var front, last := ifaces[..|ifaces| - 1], ifaces[|ifaces| - 1];
      assert InterfaceArgs(ifaces) + rest == InterfaceArgs(front) + (["--iface", last] + rest);
      InterfaceArguments(front, ["--iface", last] + rest, o);
      assert (["--iface", last] + rest)[2..] == rest;
      assert o.ifaces + front + [last] == o.ifaces + ifaces;
    } else {
      assert InterfaceArgs(ifaces) + rest == rest && o.ifaces + ifaces == o.ifaces;
    }
  }

  /** The script reads the list back as it was meant. */
  lemma EnableArgsMeaning(ips: seq<string>, ifaces: seq<string>, complete: bool)
    requires forall ip <- ips :: IsAddressText(ip)
    ensures Meaning(EnableArgs(ips, ifaces, complete), Options([], [], true)) == Some(Options(ips, ifaces, !complete))
  {
    var args := EnableArgs(ips, ifaces, complete);
    var o := Options([], [], !complete);
    var tail := ips + InterfaceArgs(ifaces);
    if complete {
      assert args[1..] == tail;
    } else {
      assert args == tail;
    }
    PlainArguments(ips, InterfaceArgs(ifaces), o);
    assert InterfaceArgs(ifaces) == InterfaceArgs(ifaces) + [];
    InterfaceArguments(ifaces, [], o.(extra := ips));
    assert o.extra + ips == ips && o.ifaces + ifaces == ifaces;
  }

  /** The state behind src/killswitch.py: the firewall and the persisted mode. */
  class Manager {
    const fw: Firewall
    var mode: Mode

    constructor (fw: Firewall, mode: Mode)
      ensures this.fw == fw && this.mode == mode
    {
      this.fw, this.mode := fw, mode;
    }

    /** enable; found is what a detect run would see. None: the failed detect is the answer. */
    method Enable(extra: Option<seq<string>>, ifaces: seq<string>, complete: bool, found: Option<string>)
      returns (r: Option<Outcome>)
      modifies fw`table, fw`conf
      ensures fw.conf == if complete || found.None? then old(fw.conf) else found
      ensures r.None? <==> !complete && found.None? && extra.None?
      ensures r.None? ==> fw.table == old(fw.table)
      ensures r.Some? ==>
        var args := EnableArgs(if extra.Some? then extra.value else [], ifaces, complete);
        OnDid(Meaning(args, Options([], [], true)), r.value, fw.conf, fw.nft, old(fw.table), fw.table)
    {
      var ips := if extra.Some? then extra.value else [];
      if !complete {
        var detected := fw.Detect(found);
        if !detected && extra.None? { return None; }
      }
      var args := BuildArgs(ips, ifaces, complete);
      var outcome := fw.On(args);
      r := Some(outcome);
    }

    /**
      resume_for_happ: nothing when the killswitch is off and no mode asks for
      it; with addresses, an enable for them (an empty list means the server did
      not resolve); without, a new detection or a plain enable.
     */
    method ResumeForHapp(extra: Option<seq<string>>, found: Option<string>) returns (acted: bool, r: Option<Outcome>)
      modifies fw`table, fw`conf
      ensures acted <==> old(fw.table).Some? || !mode.ModeOff?
      ensures !acted ==> r.None? && fw.table == old(fw.table) && fw.conf == old(fw.conf)
      ensures acted && extra.Some? ==> r.Some?
      ensures acted && extra.Some? ==>
        var args := EnableArgs(extra.value, [], extra.value != []);
        OnDid(Meaning(args, Options([], [], true)), r.value, fw.conf, fw.nft, old(fw.table), fw.table)
      ensures acted && extra.None? ==> fw.conf == if found.None? then old(fw.conf) else found
      ensures acted && extra.None? && (old(fw.table).Some? || found.None?) ==> r.None? && fw.table == old(fw.table)
      ensures acted && extra.None? && old(fw.table).None? && found.Some? ==> r.Some?
      ensures acted && extra.None? && old(fw.table).None? && found.Some? ==>
        OnDid(Meaning(EnableArgs([], [], false), Options([], [], true)), r.value, fw.conf, fw.nft, None, fw.table)
    {
      if extra.Some? {
        if fw.table.Some? || mode.ModeHapp? || mode.ModeAll? {
          r := Enable(Some(extra.value), [], |extra.value| > 0, found);
          return true, r;
        }
        return false, None;
      }
      if fw.table.Some? {
        var detected := fw.Detect(found);
        return true, None;
      }
      if mode.ModeHapp? || mode.ModeAll? {
        r := Enable(None, [], false, found);
        return true, r;
      }
      return false, None;
    }

    /** suspend_for: the table goes, the persisted mode stays. */
    method SuspendFor()
      modifies fw`table
      ensures fw.table.None?
    {
      fw.Off();
    }

    /**
      The killswitch half of any other connect. In "all" mode, for a provider
      whose endpoints are known, the chain is rebuilt for the saved or detected
      addresses and the configured endpoints; otherwise the tunnel starts with
      the killswitch off.
     */
    method PrepareOtherConnect(endpointsKnown: bool, ips: seq<string>, ifaces: seq<string>, found: Option<string>)
      returns (r: Option<Outcome>)
      requires forall ip <- ips :: IsAddressText(ip)
      modifies fw`table, fw`conf
      ensures r.Some? <==> mode.ModeAll? && endpointsKnown
      ensures r.None? ==> fw.table.None? && fw.conf == old(fw.conf)
      ensures r.Some? ==> fw.conf == if found.None? then old(fw.conf) else found
      ensures r.Some? && r.value.Done? ==>
        fw.table == Some(Chain((if fw.conf.Some? then Words(fw.conf.value) else []) + ips, ifaces))
      ensures r.Some? && r.value.Refused? ==> fw.table.None?
      ensures r.Some? && !r.value.Done? && !r.value.Refused? ==>
        r.value.EmptyWhitelist? && ips == [] && fw.table == old(fw.table)
    {
      if mode.ModeAll? && endpointsKnown {
        r := Enable(Some(ips), ifaces, false, found);
        MergedListInstalls(ips, ifaces, r.value, fw.conf, fw.nft, old(fw.table), fw.table);
        return;
      }
      if fw.table.Some? {
        SuspendFor();
      }
      return None;
    }

    /**
      The killswitch half of a Happ connect. When the killswitch is on or in an
      auto mode and some host resolves, the loaded whitelist is exactly the set
      of resolved addresses: neither the saved nor the detected ones count.
     */
    method PrepareHappConnect(servers: seq<string>, subscriptions: seq<string>, resolve: Resolver, found: Option<string>)
      returns (r: Option<Outcome>)
      requires forall h :: resolve(h).Some? ==> IsAddressText(resolve(h).value)
      modifies fw`table, fw`conf
      ensures old(fw.table).None? && mode.ModeOff? ==> r.None? && fw.table == old(fw.table)
      ensures r.Some? <==> !(old(fw.table).None? && mode.ModeOff?)
      ensures r.Some? && servers != [] && (exists h <- servers + subscriptions :: resolve(h).Some?) ==>
        exists ips :: AreResolved(ips, servers + subscriptions, resolve) && Installs(ips, r.value, fw.nft, fw.table)
    {
      var ips := [];
      if |servers| > 0 {
        ips := ResolveEndpointIps(servers + subscriptions, resolve);
      }
      var acted;
      acted, r := ResumeForHapp(Some(ips), found);
      if r.Some? && ips != [] {
        FreshListInstalls(ips, r.value, fw.conf, fw.nft, old(fw.table), fw.table);
      }
    }
  }

  /** ips are exactly the addresses the hosts resolve to. */
  ghost predicate AreResolved(ips: seq<string>, hosts: seq<string>, resolve: Resolver) {
    forall ip :: ip in ips <==> exists h <- hosts :: resolve(h) == Some(ip)
  }

  /** The table holds the chain for exactly these addresses, or nft refused that chain and there is none. */
  ghost predicate Installs(ips: seq<string>, r: Outcome, nft: Nft, table: Option<seq<NftRule>>) {
    if Loads(Chain(ips, []), nft) then r.Done? && table == Some(Chain(ips, []))
    else r.Refused? && table.None?
  }

  lemma MergedListInstalls(ips: seq<string>, ifaces: seq<string>, r: Outcome, conf: Option<string>, nft: Nft,
                           before: Option<seq<NftRule>>, after: Option<seq<NftRule>>)
    requires forall ip <- ips :: IsAddressText(ip)
    requires OnDid(Meaning(EnableArgs(ips, ifaces, false), Options([], [], true)), r, conf, nft, before, after)
    ensures r.Done? ==> after == Some(Chain((if conf.Some? then Words(conf.value) else []) + ips, ifaces))
    ensures r.Refused? ==> after.None?
    ensures !r.Done? && !r.Refused? ==> r.EmptyWhitelist? && ips == [] && after == before
  {
    EnableArgsMeaning(ips, ifaces, false);
    AddressesAreWords(ips);
  }

  lemma FreshListInstalls(ips: seq<string>, r: Outcome, conf: Option<string>, nft: Nft,
                          before: Option<seq<NftRule>>, after: Option<seq<NftRule>>)
    requires ips != [] && forall ip <- ips :: IsAddressText(ip)
    requires OnDid(Meaning(EnableArgs(ips, [], true), Options([], [], true)), r, conf, nft, before, after)
    ensures Installs(ips, r, nft, after)
  {
    EnableArgsMeaning(ips, [], true);
    AddressesAreWords(ips);
    assert Whitelist(Options(ips, [], false), conf) == ips;
  }
}
