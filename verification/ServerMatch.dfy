/** match_server, and the rows connections() makes of it. */
module ServerMatch {
  import opened Common
  import opened Text
  import Lookup

  datatype Server = Server(name: string, providerId: string, providerName: string)

  predicate Loose(s: Server, name: string) {
    Contains(s.name, name) || Contains(name, s.name)
  }

  /** The search among the servers that `keep` leaves. */
  function MatchAmong(servers: seq<Server>, name: string, keep: Server -> bool): Option<nat> {
    Lookup.ExactOrOnly(servers, (s: Server) => keep(s) && s.name == name, (s: Server) => keep(s) && Loose(s, name))
  }

  /** match_server, by position: a known subscription first, then the name alone. */
  function Match(name: string, servers: seq<Server>, providerId: string): (r: Option<nat>)
    ensures r.Some? ==> r.value < |servers|
  {
    var own := MatchAmong(servers, name, (s: Server) => s.providerId == providerId);
    if providerId != "" && own.Some? then own else MatchAmong(servers, name, s => true)
  }

  /** Server i belongs to the subscription asked for, and one of the two names is part of the other. */
  ghost predicate Fits(servers: seq<Server>, name: string, own: Option<string>, i: nat) {
    && i < |servers| && (own.None? || servers[i].providerId == own.value)
    && (PartOf(name, servers[i].name) || PartOf(servers[i].name, name))
  }

  ghost predicate PartOf(part: string, whole: string) {
    exists a, b :: 0 <= a <= b <= |whole| && whole[a..b] == part
  }

  ghost predicate IsCalled(servers: seq<Server>, name: string, own: Option<string>, i: nat) {
    i < |servers| && (own.None? || servers[i].providerId == own.value) && servers[i].name == name
  }

  /** The first server called that, or else the only one that fits. */
  ghost predicate Chosen(servers: seq<Server>, name: string, own: Option<string>, i: nat) {
    || (IsCalled(servers, name, own, i) && forall j: nat | j < i :: !IsCalled(servers, name, own, j))
    || ((forall j: nat :: !IsCalled(servers, name, own, j))
        && Fits(servers, name, own, i) && forall j: nat | Fits(servers, name, own, j) :: j == i)
  }

  lemma ChosenIff(servers: seq<Server>, name: string, own: Option<string>, keep: Server -> bool, i: nat)
    requires forall s :: keep(s) <==> own.None? || s.providerId == own.value
    ensures MatchAmong(servers, name, keep) == Some(i) <==> Chosen(servers, name, own, i)
  {
    var exact, loose := (s: Server) => keep(s) && s.name == name, (s: Server) => keep(s) && Loose(s, name);
    forall j: nat | j < |servers|
      ensures Fits(servers, name, own, j) <==> loose(servers[j])
      ensures IsCalled(servers, name, own, j) <==> exact(servers[j])
    {
      ContainsIff(servers[j].name, name);
      ContainsIff(name, servers[j].name);
    }
    if i < |servers| {
      Lookup.PicksIff(servers, exact, loose, i);
    }
  }

  /** What a name picks: within the known subscription when that settles it, else in the whole list. */
  lemma MatchIff(name: string, servers: seq<Server>, providerId: string, i: nat)
    ensures Match(name, servers, providerId) == Some(i) <==>
      if providerId != "" && exists j: nat :: Chosen(servers, name, Some(providerId), j)
      then Chosen(servers, name, Some(providerId), i)
      else Chosen(servers, name, None, i)
  {
    var mine, all := (s: Server) => s.providerId == providerId, (s: Server) => true;
    forall j: nat ensures MatchAmong(servers, name, mine) == Some(j) <==> Chosen(servers, name, Some(providerId), j) {
      ChosenIff(servers, name, Some(providerId), mine, j);
    }
    ChosenIff(servers, name, None, all, i);
    if MatchAmong(servers, name, mine).Some? {
      assert Chosen(servers, name, Some(providerId), MatchAmong(servers, name, mine).value);
    }
  }

  /** Only what matches is ever picked. */
  lemma MatchIsCandidate(name: string, servers: seq<Server>, providerId: string)
    requires Match(name, servers, providerId).Some?
    ensures Loose(servers[Match(name, servers, providerId).value], name)
  {
    assert Contains(name, name);
  }

  lemma ExactComesFirst(name: string, servers: seq<Server>, keep: Server -> bool, k: nat)
    requires k < |servers| && keep(servers[k]) && servers[k].name == name
    ensures
      var r := MatchAmong(servers, name, keep);
      r.Some? && r.value <= k && keep(servers[r.value]) && servers[r.value].name == name
  {
    var exact := (s: Server) => keep(s) && s.name == name;
    Lookup.FirstWhereNone(servers, exact);
    assert exact(servers[k]);
    Lookup.FirstWhereIff(servers, exact, Lookup.FirstWhere(servers, exact).value);
  }

  /** A name and a subscription that the list has together pick exactly such a server. */
  lemma RecordedServerIsPicked(name: string, servers: seq<Server>, providerId: string, k: nat)
    requires providerId != "" && k < |servers|
    requires servers[k].name == name && servers[k].providerId == providerId
    ensures
      var r := Match(name, servers, providerId);
      r.Some? && servers[r.value].name == name && servers[r.value].providerId == providerId && r.value <= k
  {
    ExactComesFirst(name, servers, (s: Server) => s.providerId == providerId, k);
  }

  /** No exact match and two candidates, in the subscription or, failing that, in the whole list: nothing is picked. */
  lemma AmbiguousPicksNothing(name: string, servers: seq<Server>, providerId: string, i: nat, j: nat)
    requires i < j < |servers| && Loose(servers[i], name) && Loose(servers[j], name)
    requires forall k | 0 <= k < |servers| :: servers[k].name != name
    requires
      || providerId == ""
      || servers[i].providerId == servers[j].providerId == providerId
      || forall k | 0 <= k < |servers| :: servers[k].providerId == providerId ==> !Loose(servers[k], name)
    ensures Match(name, servers, providerId) == None
  {
    Ambiguous(name, servers, s => true, i, j);
    if servers[i].providerId == servers[j].providerId == providerId {
      Ambiguous(name, servers, (s: Server) => s.providerId == providerId, i, j);
    } else if providerId != "" {
      NoCandidate(name, servers, (s: Server) => s.providerId == providerId);
    }
  }

  lemma NoCandidate(name: string, servers: seq<Server>, keep: Server -> bool)
    requires forall k | 0 <= k < |servers| :: keep(servers[k]) ==> !Loose(servers[k], name)
    ensures MatchAmong(servers, name, keep) == None
  {
    var exact, loose := (s: Server) => keep(s) && s.name == name, (s: Server) => keep(s) && Loose(s, name);
    assert Contains(name, name);
    assert forall k | 0 <= k < |servers| :: exact(servers[k]) ==> loose(servers[k]);
    Lookup.FirstWhereNone(servers, exact);
    Lookup.FirstWhereNone(servers, loose);
  }

  lemma Ambiguous(name: string, servers: seq<Server>, keep: Server -> bool, i: nat, j: nat)
    requires i < j < |servers| && keep(servers[i]) && keep(servers[j])
    requires Loose(servers[i], name) && Loose(servers[j], name)
    requires forall k | 0 <= k < |servers| :: servers[k].name != name
    ensures MatchAmong(servers, name, keep) == None
  {
    Lookup.AmbiguousPicksNothing(
      servers, (s: Server) => keep(s) && s.name == name, (s: Server) => keep(s) && Loose(s, name), i, j);
  }

  // ── Rows ───────────────────────────────────────────────────────────────────

  datatype Row = Row(
    name: string, active: bool, interface: Option<string>, subscriptionId: string, subscriptionName: string)

  /** What connections() has found out about the machine. */
  datatype Probe = Probe(
    interfaces: seq<string>,
    processes: seq<string>,
    record: Option<Record>,
    guiRunning: bool,
    lastServerName: string)

  /** The keeper's record; an absent server or subscription is "". */
  datatype Record = Record(connected: bool, server: string, providerId: string)

  predicate Up(p: Probe) {
    p.interfaces != [] || p.processes != []
  }

  function Interface(p: Probe): Option<string> {
    if p.interfaces == [] then None else Some(p.interfaces[0])
  }

  /** The server that is active according to the record, or to the GUI when it may own the tunnel. */
  function ActiveName(p: Probe): (string, string) {
    if !Up(p) then ("", "")
    else
      var recorded := if p.record.Some? && p.record.value.connected then p.record.value.server else "";
      var from := if p.record.Some? && p.record.value.connected then p.record.value.providerId else "";
      if recorded == "" && p.guiRunning then (p.lastServerName, from) else (recorded, from)
  }

  function Matched(p: Probe, servers: seq<Server>): (r: Option<nat>)
    ensures r.Some? ==> r.value < |servers|
  {
    if ActiveName(p).0 == "" then None else Match(ActiveName(p).0, servers, ActiveName(p).1)
  }

  /** Whose row is active: the server of a connected record, else the GUI's last one, nobody's without a tunnel. */
  lemma MatchedIs(p: Probe, servers: seq<Server>)
    ensures Matched(p, servers) ==
      if p.interfaces == [] && p.processes == [] then None
      else
        match p.record
        case Some(Record(true, server, from)) =>
          if server != "" then Match(server, servers, from)
          else if p.guiRunning && p.lastServerName != "" then Match(p.lastServerName, servers, from)
          else None
        case _ =>
          if p.guiRunning && p.lastServerName != "" then Match(p.lastServerName, servers, "") else None
  {}

  function ActiveCount(rows: seq<Row>): nat {
    if |rows| == 0 then 0 else ActiveCount(rows[..|rows| - 1]) + if rows[|rows| - 1].active then 1 else 0
  }

  /** Rows in front, then one row a server in the list's own order, active at the matched position only. */
  ghost predicate ListsServers(rows: seq<Row>, front: nat, servers: seq<Server>, matched: Option<nat>) {
    && |rows| == front + |servers|
    && forall i: nat | i < |servers| :: RowOf(rows[front + i], servers[i], matched == Some(i))
  }

  predicate RowOf(r: Row, s: Server, active: bool) {
    r == Row(s.name, active, if active then r.interface else None, s.providerId, s.providerName)
  }

  /** HappProvider.connections */
  method Connections(p: Probe, servers: seq<Server>) returns (rows: seq<Row>)
    ensures ActiveCount(rows) == if p.interfaces != [] || p.processes != [] then 1 else 0
    ensures servers == [] ==>
      rows == [Row(if p.lastServerName != "" then p.lastServerName else "Happ", Up(p), Interface(p), "", "")]
    ensures servers != [] ==>
      ListsServers(rows, if Up(p) && Matched(p, servers).None? then 1 else 0, servers, Matched(p, servers))
    ensures servers != [] && Up(p) && Matched(p, servers).None? ==> rows[0] == Row("Happ", true, Interface(p), "", "")
    ensures forall i | 0 <= i < |rows| && rows[i].active ::
      rows[i].interface == if p.interfaces == [] then None else Some(p.interfaces[0])
  {
    var isActive := Up(p);
    if servers == [] {
      var name := if p.lastServerName != "" then p.lastServerName else "Happ";
      rows := [Row(name, isActive, Interface(p), "", "")];
      return;
    }
    var activeName, activeSub := "", "";
    if isActive {
      if p.record.Some? && p.record.value.connected {
        activeName, activeSub := p.record.value.server, p.record.value.providerId;
      }
      if activeName == "" && p.guiRunning {
        activeName := p.lastServerName;
      }
    }
    var matched := if activeName != "" then Match(activeName, servers, activeSub) else None;
    assert matched == Matched(p, servers);
    rows := [];
    if isActive && matched.None? {
      rows := [Row("Happ", true, Interface(p), "", "")];
    }
    ghost var front := |rows|;
    for k := 0 to |servers|
      invariant ListsServers(rows, front, servers[..k], matched)
      invariant ActiveCount(rows) == front + if matched.Some? && matched.value < k then 1 else 0
      invariant front > 0 ==> rows[0] == Row("Happ", true, Interface(p), "", "")
      invariant forall i | 0 <= i < |rows| && rows[i].active :: rows[i].interface == Interface(p)
    {
      var active := matched == Some(k);
      var row := Row(servers[k].name, active, if active then Interface(p) else None,
                     servers[k].providerId, servers[k].providerName);
      OneRowMore(rows, front, servers, k, matched, row);
      rows := rows + [row];
    }
    assert servers[..|servers|] == servers;
  }

  lemma OneRowMore(rows: seq<Row>, front: nat, servers: seq<Server>, k: nat, matched: Option<nat>, row: Row)
    requires k < |servers| && ListsServers(rows, front, servers[..k], matched)
    requires RowOf(row, servers[k], matched == Some(k))
    ensures ListsServers(rows + [row], front, servers[..k + 1], matched)
    ensures ActiveCount(rows + [row]) == ActiveCount(rows) + if row.active then 1 else 0
  {
    var longer := rows + [row];
    assert longer[..|longer| - 1] == rows;
    forall i: nat | i < k + 1 ensures RowOf(longer[front + i], servers[..k + 1][i], matched == Some(i)) {
      if i < k {
        assert RowOf(rows[front + i], servers[..k][i], matched == Some(i));
      }
    }
  }

  /**
    While a tunnel is up and the keeper's record names a server of the list with
    its subscription, the active row is that server's, however many share its name.
   */
  lemma RecordedServerIsActive(p: Probe, servers: seq<Server>, rows: seq<Row>, k: nat)
    requires Up(p) && p.record.Some? && p.record.value.connected
    requires p.record.value.server != "" && p.record.value.providerId != ""
    requires k < |servers| && servers[k].name == p.record.value.server
    requires servers[k].providerId == p.record.value.providerId
    requires ListsServers(rows, if Up(p) && Matched(p, servers).None? then 1 else 0, servers, Matched(p, servers))
    ensures exists i ::
      && 0 <= i < |rows| && rows[i].active
      && rows[i].name == p.record.value.server && rows[i].subscriptionId == p.record.value.providerId
  {
    RecordedServerIsPicked(p.record.value.server, servers, p.record.value.providerId, k);
    var m := Matched(p, servers).value;
    assert RowOf(rows[0 + m], servers[m], true);
  }
}
