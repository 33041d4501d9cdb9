/**
  What the providers' connects and disconnects do to the tunnels that are up and
  to what a probe can see of them. Providers are honest: a reported connect is
  up, a reported disconnect is down, and neither brings up anything else. But a
  tunnel can be out of sight: for a while after its connect was reported, and
  for good when a refused stop has removed the record its provider's rows are
  read from.
 */
module Tunnels {
  import opened Common

  /** A connection as a menu row names it. */
  datatype Conn = Conn(provider: string, name: string)

  /**
    The providers in menu order. `records` read the active row from a record
    that disconnect and connect remove before they know whether the old tunnel
    stops (the key providers' state file, OpenVPN's pid file); a connect of one
    of `replacing` takes the place of the provider's other connections.
   */
  datatype Setup = Setup(providers: seq<string>, records: set<string>, replacing: set<string>)

  /** hidden: acknowledged but not visible yet; lost: the record is gone. */
  datatype State = State(active: set<Conn>, hidden: set<Conn>, lost: set<Conn>)

  function Visible(s: State): set<Conn> {
    s.active - s.hidden - s.lost
  }

  /** A connection a refused stop can put out of sight; `obedient` are those whose stop is sure to be accepted. */
  predicate Risky(w: Setup, obedient: set<Conn>, c: Conn) {
    c.provider in w.records && c !in obedient
  }

  /** None of these can get out of sight by being refused. */
  ghost predicate Sure(w: Setup, obedient: set<Conn>, visible: set<Conn>) {
    forall c <- visible :: !Risky(w, obedient, c)
  }

  /** What c's provider may lose sight of when it does not do what it was asked. */
  function Losable(w: Setup, obedient: set<Conn>, s: State, c: Conn): set<Conn> {
    set x | x in Visible(s) && x.provider == c.provider && Risky(w, obedient, x)
  }

  /** provider.disconnect(c): may take other connections down with it, reported or not. */
  predicate Stopped(w: Setup, obedient: set<Conn>, s: State, c: Conn, ok: bool, t: State) {
    && t.active <= s.active && t.hidden == s.hidden
    && (c in obedient ==> ok)
    && (if ok then c !in t.active && t.lost == s.lost
        else s.lost <= t.lost <= s.lost + Losable(w, obedient, s, c))
  }

  /** provider.connect(c): success is the acknowledgement, maybe before any probe can see the tunnel. */
  predicate Connected(w: Setup, obedient: set<Conn>, s: State, c: Conn, ok: bool, t: State) {
    if ok then
      && c in t.active && t.active <= s.active + {c}
      && (c.provider in w.replacing ==> forall x <- t.active :: x.provider == c.provider ==> x == c)
      && t.hidden - {c} == s.hidden - {c} && t.lost == s.lost - {c}
    else
      && t.active <= s.active && t.hidden == s.hidden
      && s.lost <= t.lost <= s.lost + Losable(w, obedient, s, c)
  }

  /** Time passes: what was acknowledged has become visible, and what was lost may have gone down. */
  predicate Settled(s: State, t: State) {
    t.active <= s.active && s.active - t.active <= s.lost && t.hidden == {} && t.lost == s.lost
  }

  // ── disconnect_all as a course of events ───────────────────────────────────

  ghost predicate NoneOf(up: set<Conn>, provider: string) {
    forall c <- up :: c.provider != provider
  }

  /** The active rows of a provider, in its own order. */
  ghost predicate IsListing(rows: seq<Conn>, visible: set<Conn>, provider: string) {
    forall c :: c in rows <==> c in visible && c.provider == provider
  }

  /** What disconnect_all lists as stopped and as failed. */
  datatype Lists = Lists(stopped: seq<Conn>, failed: seq<Conn>) {
    function Then(more: Lists): Lists {
      Lists(stopped + more.stopped, failed + more.failed)
    }
  }

  const NOTHING := Lists([], [])

  /** A row's connection counts as stopped when the stop was accepted or nothing of the provider is to be seen any more. */
  function Filed(row: Conn, fine: bool, before: Lists): Lists {
    if fine then Lists(before.stopped + [row], before.failed) else Lists(before.stopped, before.failed + [row])
  }

  ghost predicate RowTurn(w: Setup, obedient: set<Conn>, row: Conn, m: State, t: State, ok: bool,
                          before: Lists, after: Lists)
  {
    Stopped(w, obedient, m, row, ok, t) && after == Filed(row, ok || NoneOf(Visible(t), row.provider), before)
  }

  /** One provider's rows, stopped one by one. */
  ghost predicate Sweep(w: Setup, obedient: set<Conn>, rows: seq<Conn>, s: State, t: State,
                        lists: Lists)
  {
    if |rows| == 0 then t == s && lists == NOTHING
    else
      var row := rows[|rows| - 1];
      exists m, before, ok ::
        Sweep(w, obedient, rows[..|rows| - 1], s, m, before) && RowTurn(w, obedient, row, m, t, ok, before, lists)
  }

  /** The first n providers, one after the other. */
  ghost predicate SweepAll(w: Setup, obedient: set<Conn>, n: nat, s: State, t: State, lists: Lists)
    requires n <= |w.providers|
  {
    if n == 0 then t == s && lists == NOTHING
    else exists m, before, rows, turn ::
      && SweepAll(w, obedient, n - 1, s, m, before)
      && IsListing(rows, Visible(m), w.providers[n - 1])
      && Sweep(w, obedient, rows, m, t, turn)
      && lists == before.Then(turn)
  }

  /** Nothing comes up, and only risky connections get lost. */
  ghost predicate Keeps(w: Setup, obedient: set<Conn>, s: State, t: State) {
    && t.active <= s.active && t.hidden == s.hidden && s.lost <= t.lost
    && forall x <- t.lost - s.lost :: x in Visible(s) && Risky(w, obedient, x)
  }

  lemma KeepsSeesLess(w: Setup, obedient: set<Conn>, s: State, t: State)
    requires Keeps(w, obedient, s, t)
    ensures Visible(t) <= Visible(s)
  {}

  lemma SureLosesNothing(w: Setup, obedient: set<Conn>, s: State, t: State)
    requires Keeps(w, obedient, s, t)
    ensures Sure(w, obedient, Visible(s)) ==> t.lost == s.lost
  {
    if Sure(w, obedient, Visible(s)) {
      forall x | x in t.lost ensures x in s.lost {
        assert x in s.lost || x in t.lost - s.lost;
      }
    }
  }

  lemma KeepsOn(w: Setup, obedient: set<Conn>, s: State, m: State, t: State)
    requires Keeps(w, obedient, s, m) && Keeps(w, obedient, m, t)
    ensures Keeps(w, obedient, s, t)
  {
    forall x <- t.lost - s.lost ensures x in Visible(s) && Risky(w, obedient, x) {
      if x !in m.lost {
        assert x in t.lost - m.lost;
      }
    }
  }

  lemma StoppedKeeps(w: Setup, obedient: set<Conn>, s: State, c: Conn, ok: bool, t: State)
    requires Stopped(w, obedient, s, c, ok, t)
    ensures Keeps(w, obedient, s, t)
  {}

  /** What a list of stopped connections is worth: each is down, or was lost on the way. */
  ghost predicate DownOrLost(stopped: seq<Conn>, s: State, t: State) {
    forall c <- stopped :: c !in t.active || c in t.lost - s.lost
  }

  lemma DownOrLostStays(w: Setup, obedient: set<Conn>, stopped: seq<Conn>, s: State, m: State, t: State)
    requires Keeps(w, obedient, m, t) && s.lost <= m.lost && DownOrLost(stopped, s, m)
    ensures DownOrLost(stopped, s, t)
  {}

  lemma {:induction false} SweepKeeps(w: Setup, obedient: set<Conn>, rows: seq<Conn>, s: State, t: State,
                                      lists: Lists)
    requires Sweep(w, obedient, rows, s, t, lists) && forall c <- rows :: c in Visible(s)
    ensures Keeps(w, obedient, s, t) && DownOrLost(lists.stopped, s, t)
    ensures forall c :: c in lists.stopped + lists.failed <==> c in rows
    ensures lists.failed == [] ==> forall c <- rows :: c !in Visible(t)
  {
    if |rows| > 0 {
      var front, row := rows[..|rows| - 1], rows[|rows| - 1];
      var m, before, ok :|
        Sweep(w, obedient, front, s, m, before) && RowTurn(w, obedient, row, m, t, ok, before, lists);
      SweepKeeps(w, obedient, front, s, m, before);
      StoppedKeeps(w, obedient, m, row, ok, t);
      KeepsOn(w, obedient, s, m, t);
      KeepsSeesLess(w, obedient, m, t);
      DownOrLostStays(w, obedient, before.stopped, s, m, t);
      assert rows == front + [row];
      assert row in Visible(s);
    }
  }

  ghost predicate NoneOfFirst(w: Setup, n: nat, visible: set<Conn>)
    requires n <= |w.providers|
  {
    forall i | 0 <= i < n :: NoneOf(visible, w.providers[i])
  }

  lemma {:induction false} SweepAllKeeps(w: Setup, obedient: set<Conn>, n: nat, s: State, t: State,
                                         lists: Lists)
    requires n <= |w.providers| && SweepAll(w, obedient, n, s, t, lists)
    ensures Keeps(w, obedient, s, t) && DownOrLost(lists.stopped, s, t)
    ensures forall c <- lists.stopped + lists.failed :: c in Visible(s)
    ensures lists.failed == [] ==> NoneOfFirst(w, n, Visible(t))
  {
    if n > 0 {
      var m, before, rows, turn :|
        && SweepAll(w, obedient, n - 1, s, m, before)
        && IsListing(rows, Visible(m), w.providers[n - 1])
        && Sweep(w, obedient, rows, m, t, turn)
        && lists == before.Then(turn);
      SweepAllKeeps(w, obedient, n - 1, s, m, before);
      SweepKeeps(w, obedient, rows, m, t, turn);
      TurnKeeps(w, obedient, n, s, m, t, before, rows, turn);
    }
  }

  lemma TurnKeeps(w: Setup, obedient: set<Conn>, n: nat, s: State, m: State, t: State,
                  before: Lists, rows: seq<Conn>, turn: Lists)
    requires 0 < n <= |w.providers| && Keeps(w, obedient, s, m) && Keeps(w, obedient, m, t)
    requires DownOrLost(before.stopped, s, m) && DownOrLost(turn.stopped, m, t)
    requires IsListing(rows, Visible(m), w.providers[n - 1])
    requires forall c <- before.stopped + before.failed :: c in Visible(s)
    requires forall c :: c in turn.stopped + turn.failed <==> c in rows
    requires turn.failed == [] ==> forall c <- rows :: c !in Visible(t)
    requires before.failed == [] ==> NoneOfFirst(w, n - 1, Visible(m))
    ensures Keeps(w, obedient, s, t) && DownOrLost(before.Then(turn).stopped, s, t)
    ensures forall c <- before.Then(turn).stopped + before.Then(turn).failed :: c in Visible(s)
    ensures before.Then(turn).failed == [] ==> NoneOfFirst(w, n, Visible(t))
  {
    KeepsOn(w, obedient, s, m, t);
    KeepsSeesLess(w, obedient, s, m);
    KeepsSeesLess(w, obedient, m, t);
    DownOrLostStays(w, obedient, before.stopped, s, m, t);
    forall c <- before.Then(turn).stopped + before.Then(turn).failed ensures c in Visible(s) {
      if c in before.stopped + before.failed {
      } else {
        assert c in turn.stopped + turn.failed;
      }
    }
    if before.Then(turn).failed == [] {
      assert before.failed == [] && turn.failed == [];
      assert NoneOf(Visible(t), w.providers[n - 1]);
    }
  }

  /** Every connection that is up belongs to one of the providers. */
  ghost predicate Valid(w: Setup, s: State) {
    forall c <- s.active :: c.provider in w.providers
  }

  /** disconnect_all reported no failure: nothing is to be seen, whatever is still up. */
  lemma SuccessSeesNothing(w: Setup, obedient: set<Conn>, s: State, t: State, stopped: seq<Conn>)
    requires Valid(w, s) && SweepAll(w, obedient, |w.providers|, s, t, Lists(stopped, []))
    ensures Visible(t) == {} && Keeps(w, obedient, s, t)
  {
    SweepAllKeeps(w, obedient, |w.providers|, s, t, Lists(stopped, []));
    assert NoneOfFirst(w, |w.providers|, Visible(t));
    assert forall p <- w.providers :: NoneOf(Visible(t), p);
  }

  /** What every course of disconnect_all keeps, and what its success means. */
  lemma SweptAll(w: Setup, obedient: set<Conn>, s: State, t: State, lists: Lists)
    requires Valid(w, s) && SweepAll(w, obedient, |w.providers|, s, t, lists)
    ensures Valid(w, t) && Keeps(w, obedient, s, t) && DownOrLost(lists.stopped, s, t)
    ensures forall c <- lists.stopped + lists.failed :: c in Visible(s)
    ensures lists.failed == [] ==> Visible(t) == {}
    ensures Sure(w, obedient, Visible(s)) ==> t.lost == s.lost
  {
    SweepAllKeeps(w, obedient, |w.providers|, s, t, lists);
    SureLosesNothing(w, obedient, s, t);
    if lists.failed == [] {
      SuccessSeesNothing(w, obedient, s, t, lists.stopped);
    }
  }

  // ── When a successful disconnect_all leaves something up ───────────────────

  /** disconnect_all can succeed and leave x up, which was visible before. */
  ghost predicate CanSurvive(w: Setup, obedient: set<Conn>, s: State, x: Conn) {
    x in Visible(s) && exists t, stopped ::
      SweepAll(w, obedient, |w.providers|, s, t, Lists(stopped, [])) && x in t.active
  }

  /** One step of a course in which all go down, and x is refused and lost together with its row. */
  function Spare(s: State, row: Conn, x: Conn): State {
    if row == x then
      State((set y | y in s.active && (y == x || y.provider != x.provider)), s.hidden, s.lost + {x})
    else s.(active := s.active - {row})
  }

  lemma SpareStops(w: Setup, obedient: set<Conn>, s: State, row: Conn, x: Conn)
    requires Risky(w, obedient, x) && x in s.active && (x in Visible(s) || x in s.lost)
    ensures
      var t := Spare(s, row, x);
      && Stopped(w, obedient, s, row, row != x, t) && x in t.active && (x in Visible(t) || x in t.lost)
      && (row == x ==> NoneOf(Visible(t), x.provider))
  {}

  lemma SpareTurn(w: Setup, obedient: set<Conn>, m: State, front: seq<Conn>, row: Conn, x: Conn)
    requires Risky(w, obedient, x) && x in m.active && (x in Visible(m) || x in m.lost)
    ensures
      var t := Spare(m, row, x);
      && RowTurn(w, obedient, row, m, t, row != x, Lists(front, []), Lists(front + [row], []))
      && x in t.active && (x in Visible(t) || x in t.lost) && (x in Visible(m) && x != row ==> x in Visible(t))
  {
    SpareStops(w, obedient, m, row, x);
  }

  function SpareAll(s: State, rows: seq<Conn>, x: Conn): State {
    if |rows| == 0 then s else Spare(SpareAll(s, rows[..|rows| - 1], x), rows[|rows| - 1], x)
  }

  lemma {:induction false} SpareSweeps(w: Setup, obedient: set<Conn>, s: State, rows: seq<Conn>, x: Conn)
    requires Risky(w, obedient, x) && x in s.active && (x in Visible(s) || x in s.lost)
    ensures
      var t := SpareAll(s, rows, x);
      && Sweep(w, obedient, rows, s, t, Lists(rows, [])) && x in t.active && (x in Visible(t) || x in t.lost)
      && (x in Visible(s) && x !in rows ==> x in Visible(t))
  {
    if |rows| > 0 {
      var front, row := rows[..|rows| - 1], rows[|rows| - 1];
      SpareSweeps(w, obedient, s, front, x);
      var m := SpareAll(s, front, x);
      assert rows == front + [row];
      SpareTurn(w, obedient, m, front, row, x);
    }
  }

  /** A finite set of connections can be listed. */
  lemma {:induction false} Listed(visible: set<Conn>, provider: string) returns (rows: seq<Conn>)
    ensures IsListing(rows, visible, provider)
    decreases visible
  {
    rows := [];
    if c :| c in visible {
      rows := Listed(visible - {c}, provider);
      if c.provider == provider {
        rows := rows + [c];
      }
    }
  }

  lemma TwoTurns(w: Setup, obedient: set<Conn>, n: nat, s: State, m: State, t: State,
                 before: seq<Conn>, rows: seq<Conn>)
    requires 0 < n <= |w.providers| && SweepAll(w, obedient, n - 1, s, m, Lists(before, []))
    requires IsListing(rows, Visible(m), w.providers[n - 1]) && Sweep(w, obedient, rows, m, t, Lists(rows, []))
    ensures SweepAll(w, obedient, n, s, t, Lists(before + rows, []))
  {
    assert Lists(before, []).Then(Lists(rows, [])) == Lists(before + rows, []);
  }

  lemma {:induction false} SpareSweepsAll(w: Setup, obedient: set<Conn>, n: nat, s: State, x: Conn)
    returns (t: State, stopped: seq<Conn>)
    requires n <= |w.providers| && Risky(w, obedient, x) && x in Visible(s)
    ensures SweepAll(w, obedient, n, s, t, Lists(stopped, [])) && x in t.active
    ensures x in Visible(t) || (x in t.lost && x in stopped)
  {
    if n == 0 {
      t, stopped := s, [];
    } else {
      var m, before := SpareSweepsAll(w, obedient, n - 1, s, x);
      var rows := Listed(Visible(m), w.providers[n - 1]);
      SpareSweeps(w, obedient, m, rows, x);
      t, stopped := SpareAll(m, rows, x), before + rows;
      TwoTurns(w, obedient, n, s, m, t, before, rows);
    }
  }

  /**
    A successful disconnect_all can leave a visible tunnel up exactly when its
    provider reads a record and its stop may be refused.
   */
  lemma CanSurviveIff(w: Setup, obedient: set<Conn>, s: State, x: Conn)
    requires Valid(w, s) && x in Visible(s)
    ensures CanSurvive(w, obedient, s, x) <==> Risky(w, obedient, x)
  {
    if Risky(w, obedient, x) {
      var t, stopped := SpareSweepsAll(w, obedient, |w.providers|, s, x);
    }
    if CanSurvive(w, obedient, s, x) {
      var t, stopped :| SweepAll(w, obedient, |w.providers|, s, t, Lists(stopped, [])) && x in t.active;
      SuccessSeesNothing(w, obedient, s, t, stopped);
      assert x !in Visible(t);
    }
  }

  /** disconnect_all's success always means that what was visible is down, exactly when nothing visible is risky. */
  lemma AlwaysClearsIff(w: Setup, obedient: set<Conn>, s: State)
    requires Valid(w, s)
    ensures (forall x <- Visible(s) :: !CanSurvive(w, obedient, s, x)) <==> Sure(w, obedient, Visible(s))
  {
    forall x <- Visible(s) ensures CanSurvive(w, obedient, s, x) <==> Risky(w, obedient, x) {
      CanSurviveIff(w, obedient, s, x);
    }
  }

  /** The run: one refused stop, and disconnect_all succeeds and lists as stopped a tunnel that is up and out of sight. */
  lemma RefusedStopIsListedAsStopped(w: Setup, x: Conn) returns (t: State, stopped: seq<Conn>)
    requires x.provider in w.providers && x.provider in w.records
    ensures
      var s := State({x}, {}, {});
      SweepAll(w, {}, |w.providers|, s, t, Lists(stopped, [])) && x in stopped && t.active == {x} && Visible(t) == {}
  {
    var s := State({x}, {}, {});
    t, stopped := SpareSweepsAll(w, {}, |w.providers|, s, x);
    SuccessSeesNothing(w, {}, s, t, stopped);
  }

  // ── When a successful guarded_connect leaves a second tunnel ───────────────

  /** The visible connections guarded_connect takes down first. */
  function Others(s: State, c: Conn): set<Conn> {
    set o | o in Visible(s) && !(o.provider == c.provider && o.name == c.name)
  }

  lemma NoOthersIff(s: State, c: Conn)
    ensures Others(s, c) == {} <==> Visible(s) <= {c}
  {
    if Visible(s) <= {c} {
    }
  }

  /** disconnect_all when something else can be seen, then the connect, both successful. */
  ghost predicate ConnectCourse(w: Setup, obedient: set<Conn>, s: State, c: Conn, t: State) {
    exists m ::
      && Connected(w, obedient, m, c, true, t)
      && if Visible(s) <= {c} then m == s
         else exists stopped :: SweepAll(w, obedient, |w.providers|, s, m, Lists(stopped, []))
  }

  lemma RefusedConnectKeeps(w: Setup, obedient: set<Conn>, s: State, c: Conn, t: State)
    requires Connected(w, obedient, s, c, false, t)
    ensures Keeps(w, obedient, s, t)
  {}

  function RiskyOf(w: Setup, obedient: set<Conn>, s: State): set<Conn> {
    set x | x in Visible(s) && Risky(w, obedient, x)
  }

  /** After success: the target, what was out of sight already, and the risky that got lost on the way. */
  lemma CourseLeaves(w: Setup, obedient: set<Conn>, s: State, c: Conn, t: State)
    requires Valid(w, s) && ConnectCourse(w, obedient, s, c, t)
    ensures c in t.active && t.active <= {c} + s.hidden + t.lost
    ensures t.lost <= s.lost + RiskyOf(w, obedient, s) && t.hidden <= s.hidden + {c}
  {
    var m :| Connected(w, obedient, m, c, true, t)
      && if Visible(s) <= {c} then m == s
         else exists stopped :: SweepAll(w, obedient, |w.providers|, s, m, Lists(stopped, []));
    if !(Visible(s) <= {c}) {
      var stopped :| SweepAll(w, obedient, |w.providers|, s, m, Lists(stopped, []));
      SuccessSeesNothing(w, obedient, s, m, stopped);
    }
    assert Visible(m) <= {c};
    forall x | x in t.hidden ensures x in s.hidden + {c} {
      assert x != c ==> x in t.hidden - {c};
    }
  }

  /** x stays up beside c. */
  ghost predicate CanStayBeside(w: Setup, obedient: set<Conn>, s: State, c: Conn, x: Conn) {
    exists t :: ConnectCourse(w, obedient, s, c, t) && x in t.active
  }

  /**
    A successful guarded_connect can leave another visible tunnel up exactly
    when that one's stop may be refused by a provider that reads a record, and
    the connect does not take its place.
   */
  lemma CanStayBesideIff(w: Setup, obedient: set<Conn>, s: State, c: Conn, x: Conn)
    requires Valid(w, s) && x in Visible(s) && x != c
    ensures CanStayBeside(w, obedient, s, c, x)
      <==> Risky(w, obedient, x) && !(x.provider == c.provider && c.provider in w.replacing)
  {
    assert x in Visible(s) && x != c;
    if Risky(w, obedient, x) && !(x.provider == c.provider && c.provider in w.replacing) {
      var m, stopped := SpareSweepsAll(w, obedient, |w.providers|, s, x);
      var t := State({c, x}, m.hidden, m.lost - {c});
      assert Connected(w, obedient, m, c, true, t);
      assert ConnectCourse(w, obedient, s, c, t);
    }
    if CanStayBeside(w, obedient, s, c, x) {
      var t :| ConnectCourse(w, obedient, s, c, t) && x in t.active;
      var m, stopped :| Connected(w, obedient, m, c, true, t)
        && SweepAll(w, obedient, |w.providers|, s, m, Lists(stopped, []));
      SuccessSeesNothing(w, obedient, s, m, stopped);
      assert x in m.active && x !in Visible(m);
    }
  }

  // ── When a disconnect leaves a tunnel nobody sees ──────────────────────────

  /** After the disconnect something is up and nothing is to be seen. */
  ghost predicate CanGoUnseen(w: Setup, obedient: set<Conn>, s: State, c: Conn) {
    exists ok, t :: Stopped(w, obedient, s, c, ok, t) && t.active != {} && Visible(t) == {}
  }

  /** x can stay up out of sight when c is asked to stop. */
  predicate StaysUnseen(w: Setup, obedient: set<Conn>, s: State, c: Conn, x: Conn) {
    if x in Visible(s) then x.provider == c.provider && Risky(w, obedient, x) && c !in obedient
    else !(x == c && c in obedient)
  }

  /** That can happen exactly when a tunnel is out of sight already, or c's own provider can lose one. */
  lemma CanGoUnseenIff(w: Setup, obedient: set<Conn>, s: State, c: Conn)
    ensures CanGoUnseen(w, obedient, s, c) <==> exists x <- s.active :: StaysUnseen(w, obedient, s, c, x)
  {
    if x :| x in s.active && StaysUnseen(w, obedient, s, c, x) {
      var t := State({x}, s.hidden, if x in Visible(s) then s.lost + {x} else s.lost);
      assert Stopped(w, obedient, s, c, c in obedient, t);
      assert x in t.active && Visible(t) == {};
    }
    if CanGoUnseen(w, obedient, s, c) {
      var ok, t :| Stopped(w, obedient, s, c, ok, t) && t.active != {} && Visible(t) == {};
      var x :| x in t.active;
      assert x !in Visible(t);
      assert StaysUnseen(w, obedient, s, c, x);
    }
  }
}
