/**
  guarded_connect, guarded_disconnect and disconnect_all: other tunnels come down
  before a connect, and IPv6 is off while a tunnel can be seen. What the
  providers' calls can do is the subject of Tunnels.
 */
module Guard {
  import opened Common
  import opened Ipv6Guard
  import opened Tunnels

  datatype Row = Row(conn: Conn, active: bool)

  /** The active rows' connections, in the order of the rows. */
  function ActiveOf(rows: seq<Row>): seq<Conn> {
    if |rows| == 0 then []
    else
      var front, last := ActiveOf(rows[..|rows| - 1]), rows[|rows| - 1];
      if last.active then front + [last.conn] else front
  }

  lemma {:induction false} ActiveOfIs(rows: seq<Row>)
    ensures forall c :: c in ActiveOf(rows) <==> Row(c, true) in rows
  {
    if |rows| > 0 {
      ActiveOfIs(rows[..|rows| - 1]);
      assert rows == rows[..|rows| - 1] + [rows[|rows| - 1]];
      assert rows[|rows| - 1].active ==> rows[|rows| - 1] == Row(rows[|rows| - 1].conn, true);
    }
  }

  /** The providers; `obedient` is the set of connections whose stop is sure to be accepted during an action. */
  class Providers {
    const setup: Setup
    var state: State

    constructor (setup: Setup)
      ensures this.setup == setup && state == State({}, {}, {})
    {
      this.setup := setup;
      state := State({}, {}, {});
    }

    ghost predicate Shows(provider: string, rows: seq<Row>)
      reads this
    {
      && (forall r <- rows :: r.conn.provider == provider && (r.active <==> r.conn in Visible(state)))
      && (forall c <- Visible(state) :: c.provider == provider ==> Row(c, true) in rows)
    }

    /** provider.connections() */
    method Connections(provider: string) returns (rows: seq<Row>)
      ensures Shows(provider, rows)
    {
      var left := Visible(state);
      rows := [];
      while left != {}
        invariant left <= Visible(state)
        invariant forall r <- rows :: r.conn.provider == provider && r.active && r.conn in Visible(state)
        invariant forall c <- Visible(state) :: c.provider == provider ==> c in left || Row(c, true) in rows
        decreases left
      {
        var c :| c in left;
        left := left - {c};
        if c.provider == provider {
          rows := rows + [Row(c, true)];
        }
      }
    }

    /** provider.disconnect(conn) */
    method Disconnect(c: Conn, obedient: set<Conn>) returns (ok: bool)
      modifies this`state
      ensures Stopped(setup, obedient, old(state), c, ok, state)
    {
      ok := *;
      if c in obedient {
        ok := true;
      }
      var active: set<Conn> :| active <= state.active;
      var losable := Losable(setup, obedient, state, c);
      var gone: set<Conn> :| gone <= losable;
      state := if ok then state.(active := active - {c}) else state.(active := active, lost := state.lost + gone);
    }

    /** provider.connect(conn) */
    method Connect(c: Conn, obedient: set<Conn>) returns (ok: bool)
      modifies this`state
      ensures Connected(setup, obedient, old(state), c, ok, state)
    {
      ok := *;
      var seen: bool := *;
      var active: set<Conn> :| active <= state.active;
      var losable := Losable(setup, obedient, state, c);
      var gone: set<Conn> :| gone <= losable;
      if ok {
        var others := set x | x in active && !(c.provider in setup.replacing && x.provider == c.provider);
        state := State(others + {c}, if seen then state.hidden - {c} else state.hidden + {c}, state.lost - {c});
      } else {
        state := state.(active := active, lost := state.lost + gone);
      }
    }

    /** Time passes between two actions. */
    method Settle()
      modifies this`state
      ensures Settled(old(state), state)
    {
      var up: set<Conn> :| state.active - state.lost <= up <= state.active;
      state := State(up, {}, state.lost);
    }
  }

  /** active_connections over all providers. */
  method ActiveConnections(p: Providers) returns (up: set<Conn>)
    requires Valid(p.setup, p.state)
    ensures up == Visible(p.state)
  {
    up := {};
    for i := 0 to |p.setup.providers|
      invariant up <= Visible(p.state)
      invariant forall c <- Visible(p.state) :: c.provider in p.setup.providers[..i] ==> c in up
    {
      var rows := p.Connections(p.setup.providers[i]);
      forall c | c in Visible(p.state) && c.provider in p.setup.providers[..i + 1] && c !in up
        ensures Row(c, true) in rows
      {
        assert c.provider == p.setup.providers[i];
      }
      up := up + set r | r in rows && r.active :: r.conn;
    }
    assert p.setup.providers[..|p.setup.providers|] == p.setup.providers;
  }

  /** _sync_ipv6_guard; `warned` is the notification about a guard action that failed. */
  method SyncIpv6Guard(p: Providers, k: Kernel, s: Sysctl) returns (warned: bool)
    requires Valid(p.setup, p.state)
    modifies k
    ensures (k.keys, !warned) == Guarded(old(k.keys), Visible(p.state) != {}, s)
  {
    var up := ActiveConnections(p);
    var ok;
    if up != {} {
      ok := k.Disable(s);
    } else {
      ok := k.Enable(s);
    }
    warned := !ok;
  }

  /** IPv6 is off exactly while something of the set is up. */
  predicate InSync(up: set<Conn>, keys: Keys) {
    keys.allOff <==> up != {}
  }

  lemma GuardedIsInSync(k: Keys, up: set<Conn>, s: Sysctl)
    ensures Works(s) ==> InSync(up, Guarded(k, up != {}, s).0)
    ensures Guarded(k, up != {}, s).1 && up != {} ==> Guarded(k, up != {}, s).0.allOff
  {
    AllKeyAsWantedIff(k, up != {}, s);
  }

  /** A guard that is in sync with what the probes see is wrong exactly when all that is up is out of sight. */
  lemma InSyncWithAllIff(s: State, keys: Keys)
    requires InSync(Visible(s), keys)
    ensures InSync(s.active, keys) <==> s.active == {} || Visible(s) != {}
  {}

  ghost predicate AnyRows(p: Providers, obedient: set<Conn>, provider: string, s: State, lists: Lists)
    reads p
  {
    exists rows :: IsListing(rows, Visible(s), provider) && Sweep(p.setup, obedient, rows, s, p.state, lists)
  }

  /** One provider's turn in disconnect_all. */
  method DisconnectProvider(p: Providers, provider: string, obedient: set<Conn>)
    returns (stopped: seq<Conn>, failed: seq<Conn>)
    modifies p`state
    ensures AnyRows(p, obedient, provider, old(p.state), Lists(stopped, failed))
    ensures Keeps(p.setup, obedient, old(p.state), p.state) && DownOrLost(stopped, old(p.state), p.state)
    ensures forall c :: c in stopped + failed <==> c in Visible(old(p.state)) && c.provider == provider
    ensures failed == [] ==> NoneOf(Visible(p.state), provider)
  {
    stopped, failed := [], [];
    var rows := p.Connections(provider);
    ghost var before := p.state;
    for i := 0 to |rows|
      invariant Sweep(p.setup, obedient, ActiveOf(rows[..i]), before, p.state, Lists(stopped, failed))
    {
      assert rows[i] in rows && rows[..i + 1][..i] == rows[..i];
      if !rows[i].active { continue; }
      ghost var m, done := p.state, Lists(stopped, failed);
      var ok := p.Disconnect(rows[i].conn, obedient);
      var fine := ok;
      if !ok {
        var current := p.Connections(provider);
        fine := forall r <- current :: !r.active;
        assert fine <==> NoneOf(Visible(p.state), provider) by {
          NoRowActiveIff(p, provider, current);
        }
      }
      if fine {
        stopped := stopped + [rows[i].conn];
      } else {
        failed := failed + [rows[i].conn];
      }
      OneRowMore(p.setup, obedient, ActiveOf(rows[..i]), rows[i].conn, before, m, p.state, ok, done,
                 Lists(stopped, failed));
    }
    assert rows[..|rows|] == rows;
    ActiveOfIs(rows);
    TurnKept(p.setup, obedient, ActiveOf(rows), provider, before, p.state, Lists(stopped, failed));
  }

  lemma TurnKept(w: Setup, obedient: set<Conn>, rows: seq<Conn>, provider: string, s: State, t: State, lists: Lists)
    requires IsListing(rows, Visible(s), provider) && Sweep(w, obedient, rows, s, t, lists)
    ensures Keeps(w, obedient, s, t) && DownOrLost(lists.stopped, s, t)
    ensures forall c :: c in lists.stopped + lists.failed <==> c in Visible(s) && c.provider == provider
    ensures lists.failed == [] ==> NoneOf(Visible(t), provider)
  {
    SweepKeeps(w, obedient, rows, s, t, lists);
    KeepsSeesLess(w, obedient, s, t);
  }

  lemma NoRowActiveIff(p: Providers, provider: string, rows: seq<Row>)
    requires p.Shows(provider, rows)
    ensures (forall r <- rows :: !r.active) <==> NoneOf(Visible(p.state), provider)
  {}

  lemma OneRowMore(w: Setup, obedient: set<Conn>, done: seq<Conn>, row: Conn, s: State, m: State, t: State, ok: bool,
                   before: Lists, after: Lists)
    requires Sweep(w, obedient, done, s, m, before) && Stopped(w, obedient, m, row, ok, t)
    requires after == Filed(row, ok || NoneOf(Visible(t), row.provider), before)
    ensures Sweep(w, obedient, done + [row], s, t, after)
  {
    var rows := done + [row];
    assert rows[..|rows| - 1] == done && rows[|rows| - 1] == row;
    assert RowTurn(w, obedient, row, m, t, ok, before, after);
  }

  /**
    disconnect_all is one of the courses SweepAll describes. Success means that
    nothing is to be seen; what is listed as stopped is down, unless its refused
    stop put it out of sight; nothing gets out of sight that was sure to stop.
   */
  method DisconnectAll(p: Providers, k: Kernel, obedient: set<Conn>, s: Sysctl)
    returns (success: bool, stopped: seq<Conn>, failed: seq<Conn>, warned: bool)
    requires Valid(p.setup, p.state)
    modifies p`state, k
    ensures SweepAll(p.setup, obedient, |p.setup.providers|, old(p.state), p.state, Lists(stopped, failed))
    ensures Valid(p.setup, p.state) && Keeps(p.setup, obedient, old(p.state), p.state)
    ensures success <==> failed == []
    ensures success ==> Visible(p.state) == {}
    ensures DownOrLost(stopped, old(p.state), p.state)
    ensures forall c <- stopped + failed :: c in Visible(old(p.state))
    ensures Sure(p.setup, obedient, Visible(old(p.state))) ==> p.state.lost == old(p.state.lost)
    ensures (k.keys, !warned) == Guarded(old(k.keys), Visible(p.state) != {}, s)
  {
    stopped, failed := [], [];
    ghost var before := p.state;
    for i := 0 to |p.setup.providers|
      invariant SweepAll(p.setup, obedient, i, before, p.state, Lists(stopped, failed)) && k.keys == old(k.keys)
    {
      ghost var m, lists := p.state, Lists(stopped, failed);
      var down, up := DisconnectProvider(p, p.setup.providers[i], obedient);
      stopped, failed := stopped + down, failed + up;
      OneProviderMore(p, obedient, i, before, m, lists, Lists(down, up));
    }
    SweptAll(p.setup, obedient, before, p.state, Lists(stopped, failed));
    success := failed == [];
    warned := SyncIpv6Guard(p, k, s);
  }

  lemma OneProviderMore(p: Providers, obedient: set<Conn>, i: nat, s: State, m: State, lists: Lists, turn: Lists)
    requires i < |p.setup.providers| && SweepAll(p.setup, obedient, i, s, m, lists)
    requires AnyRows(p, obedient, p.setup.providers[i], m, turn)
    ensures SweepAll(p.setup, obedient, i + 1, s, p.state, lists.Then(turn))
  {}

  /**
    guarded_connect, after the killswitch part: everything else that can be seen
    comes down first, and a success is not probed again. s1 and s2 are the luck
    of the two guard actions there can be. A success is one of the courses
    ConnectCourse describes.
   */
  method GuardedConnect(p: Providers, k: Kernel, c: Conn, obedient: set<Conn>, s1: Sysctl, s2: Sysctl)
    returns (success: bool, warned: bool)
    requires Valid(p.setup, p.state) && c.provider in p.setup.providers
    modifies p`state, k
    ensures Valid(p.setup, p.state)
    ensures success ==> ConnectCourse(p.setup, obedient, old(p.state), c, p.state)
    ensures success ==> c in p.state.active && p.state.active <= {c} + old(p.state.hidden) + p.state.lost
    ensures success && Sure(p.setup, obedient, Visible(old(p.state))) ==> p.state.lost <= old(p.state.lost)
    ensures !success ==> Keeps(p.setup, obedient, old(p.state), p.state)
    ensures Works(s1) && Works(s2) ==> if success then k.keys.allOff else InSync(Visible(p.state), k.keys)
    ensures !warned && (success || Visible(p.state) != {}) ==> k.keys.allOff
  {
    ghost var before := p.state;
    var alone;
    alone, warned := TearDownOthers(p, k, c, obedient, s1);
    if !alone { return false, warned; }
    ghost var keys, m := k.keys, p.state;
    success := p.Connect(c, obedient);
    var alarm;
    if success {
      CourseEnds(p.setup, obedient, before, m, c, p.state);
      var ok := k.Disable(s2);
      AllKeyAsWantedIff(keys, true, s2);
      alarm := !ok;
    } else {
      RefusedConnectKeeps(p.setup, obedient, m, c, p.state);
      KeepsOn(p.setup, obedient, before, m, p.state);
      alarm := SyncIpv6Guard(p, k, s2);
      GuardedIsInSync(keys, Visible(p.state), s2);
    }
    warned := warned || alarm;
  }

  lemma CourseEnds(w: Setup, obedient: set<Conn>, s: State, m: State, c: Conn, t: State)
    requires Valid(w, s) && CameDown(w, obedient, s, c, m) && Connected(w, obedient, m, c, true, t)
    ensures ConnectCourse(w, obedient, s, c, t)
    ensures c in t.active && t.active <= {c} + s.hidden + t.lost
    ensures Sure(w, obedient, Visible(s)) ==> t.lost <= s.lost
  {
    CourseLeaves(w, obedient, s, c, t);
  }

  ghost predicate CameDown(w: Setup, obedient: set<Conn>, s: State, c: Conn, m: State) {
    if Visible(s) <= {c} then m == s
    else exists stopped :: SweepAll(w, obedient, |w.providers|, s, m, Lists(stopped, []))
  }

  /** The first half of guarded_connect: unless the target is all that can be seen, everything comes down. */
  method TearDownOthers(p: Providers, k: Kernel, c: Conn, obedient: set<Conn>, s: Sysctl)
    returns (alone: bool, warned: bool)
    requires Valid(p.setup, p.state)
    modifies p`state, k
    ensures Valid(p.setup, p.state) && Keeps(p.setup, obedient, old(p.state), p.state)
    ensures alone ==> CameDown(p.setup, obedient, old(p.state), c, p.state)
    ensures Works(s) && !alone ==> InSync(Visible(p.state), k.keys)
    ensures !warned && !alone && Visible(p.state) != {} ==> k.keys.allOff
  {
    var up := ActiveConnections(p);
    var others := set o | o in up && !(o.provider == c.provider && o.name == c.name);
    assert others == Others(p.state, c);
    NoOthersIff(p.state, c);
    if others != {} {
      var stopped, failed;
      alone, stopped, failed, warned := DisconnectAll(p, k, obedient, s);
      GuardedIsInSync(old(k.keys), Visible(p.state), s);
      return;
    }
    return true, false;
  }

  /** guarded_disconnect */
  method GuardedDisconnect(p: Providers, k: Kernel, c: Conn, obedient: set<Conn>, s: Sysctl)
    returns (success: bool, warned: bool)
    requires Valid(p.setup, p.state)
    modifies p`state, k
    ensures Valid(p.setup, p.state)
    ensures Stopped(p.setup, obedient, old(p.state), c, success, p.state)
    ensures Works(s) ==> InSync(Visible(p.state), k.keys)
    ensures !warned && Visible(p.state) != {} ==> k.keys.allOff
    ensures (k.keys, !warned) == Guarded(old(k.keys), Visible(p.state) != {}, s)
  {
    success := p.Disconnect(c, obedient);
    warned := SyncIpv6Guard(p, k, s);
    GuardedIsInSync(old(k.keys), Visible(p.state), s);
  }

  // ── IPv6 on under a live tunnel ────────────────────────────────────────────

  /** A disconnect whose guard action works can end with IPv6 on and a tunnel up. */
  ghost predicate CanLeak(w: Setup, obedient: set<Conn>, st: State, c: Conn, k: Keys, s: Sysctl) {
    exists ok, t ::
      Stopped(w, obedient, st, c, ok, t) && t.active != {} && !Guarded(k, Visible(t) != {}, s).0.allOff
  }

  /**
    Exactly when a tunnel can stay up out of sight: it is acknowledged and not
    visible yet, or its record is gone, or goes with this very stop.
   */
  lemma CanLeakIff(w: Setup, obedient: set<Conn>, st: State, c: Conn, k: Keys, s: Sysctl)
    requires Works(s)
    ensures CanLeak(w, obedient, st, c, k, s) <==> exists x <- st.active :: StaysUnseen(w, obedient, st, c, x)
  {
    CanGoUnseenIff(w, obedient, st, c);
    if CanGoUnseen(w, obedient, st, c) {
      var ok, t :| Stopped(w, obedient, st, c, ok, t) && t.active != {} && Visible(t) == {};
      GuardedIsInSync(k, Visible(t), s);
    }
    if CanLeak(w, obedient, st, c, k, s) {
      var ok, t :|
        Stopped(w, obedient, st, c, ok, t) && t.active != {} && !Guarded(k, Visible(t) != {}, s).0.allOff;
      GuardedIsInSync(k, Visible(t), s);
    }
  }

  /** Two runs: a refused stop that removed the record, and any disconnect while the tunnel is not visible yet. */
  lemma LeakingDisconnects(w: Setup, x: Conn, other: Conn, k: Keys, s: Sysctl)
    requires Works(s) && x.provider in w.records && x != other
    ensures CanLeak(w, {}, State({x}, {}, {}), x, k, s)
    ensures CanLeak(w, {other}, State({x}, {x}, {}), other, k, s)
  {
    CanLeakIff(w, {}, State({x}, {}, {}), x, k, s);
    CanLeakIff(w, {other}, State({x}, {x}, {}), other, k, s);
    assert StaysUnseen(w, {}, State({x}, {}, {}), x, x);
    assert StaysUnseen(w, {other}, State({x}, {x}, {}), other, x);
  }

  // ── One action after the other ─────────────────────────────────────────────

  datatype Action = ConnectTo(conn: Conn) | DisconnectFrom(conn: Conn) | DisconnectEverything

  /** How the outside answers to one action. */
  datatype Luck = Luck(first: Sysctl, second: Sysctl, obedient: set<Conn>)

  /** What an action left behind, and the target when a connect succeeded. */
  datatype Moment = Moment(state: State, keys: Keys, connected: Option<Conn>)

  predicate Fortunate(l: Luck) {
    Works(l.first) && Works(l.second)
  }

  /** What one action, begun when all that was acknowledged is visible, does to the tunnels. */
  ghost predicate Follows(w: Setup, l: Luck, before: State, m: Moment) {
    && m.state.lost <= before.lost + RiskyOf(w, l.obedient, before.(hidden := {}))
    && match m.connected
       case Some(c) => c in m.state.active && m.state.active <= {c} + m.state.lost && m.state.hidden <= {c}
       case None => m.state.active <= before.active && m.state.hidden == {}
  }

  /** IPv6 is off after a connect, and otherwise off exactly while something can be seen. */
  predicate Guards(m: Moment) {
    if m.connected.Some? then m.keys.allOff else InSync(Visible(m.state), m.keys)
  }

  /** One action, after time has passed. */
  method Perform(p: Providers, k: Kernel, a: Action, l: Luck) returns (m: Moment)
    requires Valid(p.setup, p.state) && (a.ConnectTo? ==> a.conn.provider in p.setup.providers)
    modifies p`state, k
    ensures Valid(p.setup, p.state) && m.state == p.state && m.keys == k.keys
    ensures Follows(p.setup, l, old(p.state), m)
    ensures Fortunate(l) ==> Guards(m)
  {
    p.Settle();
    ghost var before := p.state;
    var connected := None;
    match a {
      case ConnectTo(c) =>
        var success, warned := GuardedConnect(p, k, c, l.obedient, l.first, l.second);
        if success {
          connected := Some(c);
          CourseLeaves(p.setup, l.obedient, before, c, p.state);
        }
      case DisconnectFrom(c) =>
        var success, warned := GuardedDisconnect(p, k, c, l.obedient, l.second);
        StoppedKeeps(p.setup, l.obedient, before, c, success, p.state);
      case DisconnectEverything =>
        var success, stopped, failed, warned := DisconnectAll(p, k, l.obedient, l.second);
        GuardedIsInSync(old(k.keys), Visible(p.state), l.second);
    }
    m := Moment(p.state, k.keys, connected);
    SettledRisk(p.setup, l.obedient, old(p.state), before);
  }

  lemma SettledRisk(w: Setup, obedient: set<Conn>, s: State, t: State)
    requires Settled(s, t)
    ensures RiskyOf(w, obedient, t) <= RiskyOf(w, obedient, s.(hidden := {}))
  {}

  ghost function StateBefore(moments: seq<Moment>, first: State, i: nat): State
    requires i <= |moments|
  {
    if i == 0 then first else moments[i - 1].state
  }

  ghost predicate FollowsAt(w: Setup, moments: seq<Moment>, luck: seq<Luck>, first: State, i: nat) {
    i < |moments| && i < |luck| && Follows(w, luck[i], StateBefore(moments, first, i), moments[i])
  }

  ghost predicate AllFollow(w: Setup, moments: seq<Moment>, luck: seq<Luck>, first: State) {
    forall i | 0 <= i < |moments| :: FollowsAt(w, moments, luck, first, i)
  }

  lemma AllFollowMore(w: Setup, moments: seq<Moment>, luck: seq<Luck>, first: State, m: Moment)
    requires AllFollow(w, moments, luck, first) && |luck| > |moments|
    requires Follows(w, luck[|moments|], StateBefore(moments, first, |moments|), m)
    ensures AllFollow(w, moments + [m], luck, first)
    ensures StateBefore(moments + [m], first, |moments| + 1) == m.state
  {
    var more := moments + [m];
    forall i | 0 <= i < |more| ensures FollowsAt(w, more, luck, first, i) {
      if i < |moments| {
        FollowsAtStays(w, moments, luck, first, m, i);
      }
    }
  }

  lemma FollowsAtStays(w: Setup, moments: seq<Moment>, luck: seq<Luck>, first: State, m: Moment, i: nat)
    requires FollowsAt(w, moments, luck, first, i)
    ensures FollowsAt(w, moments + [m], luck, first, i)
  {
    assert StateBefore(moments + [m], first, i) == StateBefore(moments, first, i);
  }

  /** Any actions, each after time has passed. */
  method PerformAll(p: Providers, k: Kernel, actions: seq<Action>, luck: seq<Luck>) returns (moments: seq<Moment>)
    requires Valid(p.setup, p.state) && |luck| == |actions|
    requires forall a <- actions :: a.ConnectTo? ==> a.conn.provider in p.setup.providers
    modifies p`state, k
    ensures |moments| == |actions| && Valid(p.setup, p.state)
    ensures AllFollow(p.setup, moments, luck, old(p.state))
    ensures forall i | 0 <= i < |moments| && Fortunate(luck[i]) :: Guards(moments[i])
    ensures p.state == StateBefore(moments, old(p.state), |moments|)
  {
    moments := [];
    for i := 0 to |actions|
      invariant |moments| == i && Valid(p.setup, p.state)
      invariant AllFollow(p.setup, moments, luck, old(p.state))
      invariant forall j | 0 <= j < i && Fortunate(luck[j]) :: Guards(moments[j])
      invariant p.state == StateBefore(moments, old(p.state), i)
    {
      assert actions[i] in actions;
      var m := Perform(p, k, actions[i], luck[i]);
      AllFollowMore(p.setup, moments, luck, old(p.state), m);
      moments := moments + [m];
    }
  }

  /** One action before which nothing that is up can get out of sight by being refused. */
  lemma SureStep(w: Setup, l: Luck, before: State, m: Moment)
    requires Follows(w, l, before, m) && before.lost == {} && Sure(w, l.obedient, before.active)
    ensures m.state.lost == {}
    ensures Guards(m) ==> InSync(m.state.active, m.keys)
    ensures m.connected.Some? ==> m.state.active == {m.connected.value}
    ensures m.connected.None? ==> m.state.active <= before.active
  {
    assert RiskyOf(w, l.obedient, before.(hidden := {})) == {};
  }

  ghost predicate SureAt(w: Setup, moments: seq<Moment>, luck: seq<Luck>, first: State, i: nat) {
    i < |moments| && i < |luck| && Sure(w, luck[i].obedient, StateBefore(moments, first, i).active)
  }

  /** As long as that holds, nothing is ever lost. */
  lemma {:induction false} NothingLost(w: Setup, moments: seq<Moment>, luck: seq<Luck>, first: State, n: nat)
    requires AllFollow(w, moments, luck, first) && n <= |moments| && first.lost == {}
    requires forall i | 0 <= i < n :: SureAt(w, moments, luck, first, i)
    ensures StateBefore(moments, first, n).lost == {}
  {
    if n > 0 {
      NothingLost(w, moments, luck, first, n - 1);
      assert FollowsAt(w, moments, luck, first, n - 1) && SureAt(w, moments, luck, first, n - 1);
      SureStep(w, luck[n - 1], StateBefore(moments, first, n - 1), moments[n - 1]);
    }
  }

  /**
    Then, after every action whose guard calls work, IPv6 is off exactly while
    something is up, and from a successful connect on there is at most one tunnel.
   */
  lemma {:induction false} SureRunIsGuarded(w: Setup, moments: seq<Moment>, luck: seq<Luck>, first: State, i: nat, j: nat)
    requires AllFollow(w, moments, luck, first) && first.lost == {} && i <= j < |moments|
    requires forall n | 0 <= n <= j :: SureAt(w, moments, luck, first, n)
    ensures Guards(moments[j]) ==> InSync(moments[j].state.active, moments[j].keys)
    ensures moments[i].connected.Some? ==> exists c :: moments[j].state.active <= {c}
  {
    NothingLost(w, moments, luck, first, j);
    assert FollowsAt(w, moments, luck, first, j) && SureAt(w, moments, luck, first, j);
    SureStep(w, luck[j], StateBefore(moments, first, j), moments[j]);
    if moments[j].connected.Some? {
      assert moments[j].state.active <= {moments[j].connected.value};
    } else if moments[i].connected.Some? {
      SureRunIsGuarded(w, moments, luck, first, i, j - 1);
      var c :| moments[j - 1].state.active <= {c};
      assert moments[j].state.active <= {c};
    }
  }

  /** In every run, IPv6 is wrong after an action exactly when all that is up has been lost. */
  lemma RunIsGuardedIff(w: Setup, moments: seq<Moment>, luck: seq<Luck>, first: State, j: nat)
    requires AllFollow(w, moments, luck, first) && j < |moments| && Guards(moments[j])
    ensures var m := moments[j];
      InSync(m.state.active, m.keys) <==> m.connected.Some? || m.state.active == {} || !(m.state.active <= m.state.lost)
  {
    assert FollowsAt(w, moments, luck, first, j);
    StepIsGuardedIff(w, luck[j], StateBefore(moments, first, j), moments[j]);
  }

  lemma StepIsGuardedIff(w: Setup, l: Luck, before: State, m: Moment)
    requires Follows(w, l, before, m) && Guards(m)
    ensures InSync(m.state.active, m.keys)
      <==> m.connected.Some? || m.state.active == {} || !(m.state.active <= m.state.lost)
  {
    var s := m.state;
    if m.connected.None? && s.active != {} && !(s.active <= s.lost) {
      var c :| c in s.active && c !in s.lost;
      assert c in Visible(s);
    }
  }
}
