/** The menu's side of the keeper protocol: polling the state file for a verdict, and whose verdict it is. */
module KeeperMenu {
  import opened Common
  import opened Keeper
  import opened KeeperWorld

  datatype Verdict = Pending | Success(server: Option<string>) | KeeperFailed | ExitedEarly | TimedOut

  /** What one content of the state file says; the pid in it is not looked at. */
  function VerdictOf(file: Option<Record>): Verdict {
    if file.None? then Pending else
    match file.value.status
    case Connecting => Pending
    case Connected => Success(file.value.server)
    case Error => KeeperFailed
    case Exited => ExitedEarly
  }

  /** Poll i is the first decisive one. */
  ghost predicate DecidedAt(polls: seq<Option<Record>>, i: nat) {
    i < |polls| && !VerdictOf(polls[i]).Pending? && forall j | 0 <= j < i :: VerdictOf(polls[j]).Pending?
  }

  /** _await_keeper: the polls are what the file held each time before the deadline. */
  method AwaitKeeper(polls: seq<Option<Record>>) returns (v: Verdict)
    ensures v.TimedOut? ==> forall file <- polls :: VerdictOf(file).Pending?
    ensures !v.TimedOut? ==> exists i: nat :: DecidedAt(polls, i) && v == VerdictOf(polls[i])
  {
    var i := 0;
    while i < |polls|
      invariant 0 <= i <= |polls|
      invariant forall j | 0 <= j < i :: VerdictOf(polls[j]).Pending?
    {
      var state := polls[i];
      if state.Some? && !state.value.status.Connecting? {
        assert DecidedAt(polls, i);
        if state.value.status.Connected? { return Success(state.value.server); }
        if state.value.status.Error? { return KeeperFailed; }
        if state.value.status.Exited? { return ExitedEarly; }
      }
      i := i + 1;
    }
    return TimedOut;
  }

  /** The contents read at the given moments of a run, one poll after the other. */
  ghost predicate AreTimes(ws: seq<World>, times: seq<nat>) {
    && (forall i | 0 <= i < |times| :: times[i] < |ws|)
    && (forall i, j | 0 <= i < j < |times| :: times[i] <= times[j])
  }

  ghost function PollsOf(ws: seq<World>, times: seq<nat>): (polls: seq<Option<Record>>)
    requires AreTimes(ws, times)
    ensures |polls| == |times|
  {
    seq(|times|, i requires 0 <= i < |times| => ws[times[i]].file)
  }

  /**
    A success verdict after a connect's unlink reports the server that a keeper
    was spawned for, and happd acknowledged that keeper.
   */
  lemma SuccessMeansAcknowledged(ws: seq<World>, ss: seq<Step>, u: nat, times: seq<nat>, i: nat)
    requires IsRun(ws, ss) && u < |ss| && ss[u].Unlink?
    requires AreTimes(ws, times) && forall t <- times :: u < t
    requires DecidedAt(PollsOf(ws, times), i) && VerdictOf(PollsOf(ws, times)[i]).Success?
    ensures exists j: nat ::
      && j < times[i] && j < |ss| && ss[j].Spawn? && Owns(ws[times[i]].file, ss[j].setup.pid)
      && Acknowledged(ss, times[i], ss[j].setup.pid)
      && VerdictOf(PollsOf(ws, times)[i]) == Success(ss[j].setup.server)
  {
    assert times[i] in times;
    var j := ConnectedNamesSpawned(ws, ss, u, times[i]);
  }

  // ── Whose verdict it is ────────────────────────────────────────────────────

  /** No further connect: the keepers there are go on, stop, or are killed, and the file may be unlinked. */
  ghost predicate NoSpawn(ss: seq<Step>) {
    forall i | 0 <= i < |ss| :: !ss[i].Spawn?
  }

  /** The world as the connect leaves it: file unlinked, keeper spawned. */
  function Connect(w: World, setup: Setup): World
    requires setup.pid !in w.keepers
  {
    Next(Next(w, Unlink), Spawn(setup))
  }

  /** The file decides, and on a record that is not p's. */
  predicate Misleads(file: Option<Record>, p: Pid) {
    !VerdictOf(file).Pending? && file.value.pid != Some(p)
  }

  /** Every keeper but p is gone and whatever the file holds is p's. */
  ghost predicate Alone(w: World, p: Pid) {
    (w.file.None? || Owns(w.file, p)) && forall q <- w.keepers | q != p :: w.keepers[q].phase.Done?
  }

  lemma AloneKept(w: World, s: Step, p: Pid)
    requires Named(w) && Enabled(w, s) && !s.Spawn? && Alone(w, p)
    ensures Alone(Next(w, s), p)
  {
    var v := Next(w, s);
    forall q <- v.keepers | q != p ensures v.keepers[q].phase.Done? {
      assert q in w.keepers;
    }
  }

  lemma {:induction false} AloneStays(w: World, ss: seq<Step>, p: Pid)
    requires Named(w) && Continues(w, ss) && NoSpawn(ss) && Alone(w, p)
    ensures Alone(Final(w, ss), p)
    decreases |ss|
  {
    if |ss| > 0 {
      AloneKept(w, ss[0], p);
      NamedKept(w, ss[0]);
      assert NoSpawn(ss[1..]) by {
        assert forall i | 0 <= i < |ss| - 1 :: ss[1..][i] == ss[i + 1];
      }
      AloneStays(Next(w, ss[0]), ss[1..], p);
    }
  }

  /** When every older keeper is gone, every record the poll can read is the spawned keeper's. */
  lemma VerdictIsOwnWhenAlone(w: World, setup: Setup, ss: seq<Step>)
    requires Named(w) && setup.pid !in w.keepers
    requires forall q <- w.keepers :: w.keepers[q].phase.Done?
    requires Continues(Connect(w, setup), ss) && NoSpawn(ss)
    ensures var file := Final(Connect(w, setup), ss).file; file.None? || Owns(file, setup.pid)
  {
    NamedKept(w, Unlink);
    NamedKept(Next(w, Unlink), Spawn(setup));
    AloneStays(Connect(w, setup), ss, setup.pid);
  }

  /** How far keeper q is from putting a decisive record into a file it may write. */
  function Distance(phase: Phase): nat {
    match phase
    case Sleeping => 6
    case Rechecking => 5
    case Claiming | CheckingOwner => 4
    case Announcing(_) | Reporting(_) | Closing => 1
    case _ => 3
  }

  /** Its next step on the way there: where an exception can come, one comes. */
  function Hasten(q: Pid, phase: Phase): Step {
    match phase
    case Sleeping => Act(q, Slept)
    case Claiming | CheckingOwner | Rechecking | Announcing(_) | Reporting(_) | Closing => Act(q, Access(true))
    case _ => Act(q, Crashed)
  }

  /** What a keeper's own record says in the phases that write one. */
  ghost predicate Honest(k: Keeper) {
    && (k.phase.Claiming? ==> k.state.status.Connecting?)
    && (k.phase.Announcing? ==> k.state.status.Connected?)
    && (k.phase.Reporting? ==> k.state.status.Error?)
  }

  ghost predicate AllHonest(w: World) {
    forall p <- w.keepers :: Honest(w.keepers[p])
  }

  lemma AllHonestKept(w: World, s: Step)
    requires AllHonest(w) && Enabled(w, s)
    ensures AllHonest(Next(w, s))
  {}

  predicate CanWrite(w: World, q: Pid) {
    q in w.keepers && !w.keepers[q].phase.Done? && Replaceable(w.file, q)
  }

  lemma HastenHelps(w: World, q: Pid)
    requires Named(w) && AllHonest(w) && CanWrite(w, q)
    ensures Enabled(w, Hasten(q, w.keepers[q].phase))
    ensures
      var k := w.keepers[q];
      var v := Next(w, Hasten(q, k.phase));
      if Distance(k.phase) == 1 then Owns(v.file, q) && !VerdictOf(v.file).Pending?
      else CanWrite(v, q) && Distance(v.keepers[q].phase) < Distance(k.phase)
  {}

  lemma {:induction false} WayToDecisive(w: World, q: Pid) returns (ss: seq<Step>)
    requires Named(w) && AllHonest(w) && CanWrite(w, q)
    ensures Continues(w, ss) && NoSpawn(ss)
    ensures var file := Final(w, ss).file; Owns(file, q) && !VerdictOf(file).Pending?
    decreases Distance(w.keepers[q].phase)
  {
    var s := Hasten(q, w.keepers[q].phase);
    HastenHelps(w, q);
    var v := Next(w, s);
    if Distance(w.keepers[q].phase) == 1 {
      ss := [s];
      assert ss[1..] == [];
      assert Continues(v, ss[1..]);
    } else {
      NamedKept(w, s);
      AllHonestKept(w, s);
      var rest := WayToDecisive(v, q);
      ss := [s] + rest;
      assert ss[1..] == rest;
    }
  }

  /** After this connect some course of events makes a poll decide on another keeper's record. */
  ghost predicate CanMislead(w: World, setup: Setup)
    requires setup.pid !in w.keepers
  {
    exists ss ::
      && Continues(Connect(w, setup), ss) && NoSpawn(ss)
      && Misleads(Final(Connect(w, setup), ss).file, setup.pid)
  }

  lemma {:induction false} RunHonest(ws: seq<World>, ss: seq<Step>, n: nat)
    requires IsRun(ws, ss) && n < |ws|
    ensures Named(ws[n]) && AllHonest(ws[n])
  {
    RunNamed(ws, ss, n);
    if n > 0 {
      RunHonest(ws, ss, n - 1);
      AllHonestKept(ws[n - 1], ss[n - 1]);
    }
  }

  /**
    At any moment of any run: the verdict of a connect made there can be another
    keeper's exactly when some older keeper is still there.
   */
  lemma VerdictCanBeForeignIff(ws: seq<World>, before: seq<Step>, n: nat, setup: Setup)
    requires IsRun(ws, before) && n < |ws| && setup.pid !in ws[n].keepers
    ensures CanMislead(ws[n], setup) <==> exists q <- ws[n].keepers :: !ws[n].keepers[q].phase.Done?
  {
    var w := ws[n];
    RunHonest(ws, before, n);
    if q :| q in w.keepers && !w.keepers[q].phase.Done? {
      NamedKept(w, Unlink);
      NamedKept(Next(w, Unlink), Spawn(setup));
      assert CanWrite(Connect(w, setup), q);
      var ss := WayToDecisive(Connect(w, setup), q);
      assert Misleads(Final(Connect(w, setup), ss).file, setup.pid);
    } else {
      forall ss | Continues(Connect(w, setup), ss) && NoSpawn(ss)
        ensures !Misleads(Final(Connect(w, setup), ss).file, setup.pid)
      {
        VerdictIsOwnWhenAlone(w, setup, ss);
      }
    }
  }

  // ── When a reported error is seen ──────────────────────────────────────────

  predicate ShowsError(w: World, p: Pid) {
    Owns(w.file, p) && w.file.value.status.Error?
  }

  /** The step puts p's error record into the file. */
  predicate Reports(w: World, s: Step, p: Pid) {
    && s == Act(p, Access(true)) && p in w.keepers && w.keepers[p].phase.Reporting?
    && (Unguarded(w.keepers[p].phase) || Replaceable(w.file, p))
  }

  /** The step takes p's error record out again: an unlink, p's own "exited", or a write that does not look. */
  predicate Removes(w: World, s: Step, p: Pid) {
    || s.Unlink?
    || (s.Act? && s.input == Access(true) && s.pid in w.keepers
        && (if s.pid == p then w.keepers[p].phase.Closing? else Unguarded(w.keepers[s.pid].phase)))
  }

  /** The file is some keeper's, and a keeper whose error it shows has only its "exited" left to write. */
  ghost predicate ErrorsEnd(w: World) {
    w.file.Some? ==>
      && w.file.value.pid.Some? && w.file.value.pid.value in w.keepers
      && (w.file.value.status.Error? ==> Ending(w.keepers[w.file.value.pid.value].phase))
  }

  predicate Ending(phase: Phase) {
    phase.Closing? || phase.Done?
  }

  lemma ErrorsEndKept(w: World, s: Step)
    requires Named(w) && AllHonest(w) && ErrorsEnd(w) && Enabled(w, s)
    ensures ErrorsEnd(Next(w, s))
  {}

  /** After an unlink, an error record names a keeper that is closing or gone. */
  lemma {:induction false} ErrorMeansEnding(ws: seq<World>, ss: seq<Step>, u: nat, n: nat)
    requires IsRun(ws, ss) && u < n < |ws| && ss[u].Unlink?
    ensures ErrorsEnd(ws[n])
  {
    if n == u + 1 {
      assert ws[n].file.None?;
    } else {
      ErrorMeansEnding(ws, ss, u, n - 1);
      RunHonest(ws, ss, n - 1);
      ErrorsEndKept(ws[n - 1], ss[n - 1]);
    }
  }

  lemma ErrorStep(w: World, s: Step, p: Pid)
    requires Named(w) && AllHonest(w) && ErrorsEnd(w) && Enabled(w, s)
    ensures ShowsError(Next(w, s), p) <==> Reports(w, s, p) || (ShowsError(w, p) && !Removes(w, s, p))
  {}

  /** Step r after the unlink u reports p's error, and nothing has removed it before moment n. */
  ghost predicate InErrorWindow(ws: seq<World>, ss: seq<Step>, u: nat, n: nat, p: Pid, r: nat) {
    && |ws| == |ss| + 1 && u < r < n < |ws| && Reports(ws[r], ss[r], p)
    && forall i | r < i < n :: !Removes(ws[i], ss[i], p)
  }

  /** The file shows an error exactly between the report and what removes it. */
  lemma {:induction false} ErrorShownIff(ws: seq<World>, ss: seq<Step>, u: nat, n: nat, p: Pid)
    requires IsRun(ws, ss) && u < n < |ws| && ss[u].Unlink?
    ensures ShowsError(ws[n], p) <==> exists r: nat :: InErrorWindow(ws, ss, u, n, p, r)
  {
    if n == u + 1 {
      assert ws[n].file.None?;
    } else {
      ErrorShownIff(ws, ss, u, n - 1, p);
      ErrorMeansEnding(ws, ss, u, n - 1);
      RunHonest(ws, ss, n - 1);
      ErrorStep(ws[n - 1], ss[n - 1], p);
      if Reports(ws[n - 1], ss[n - 1], p) {
        assert InErrorWindow(ws, ss, u, n, p, n - 1);
      } else if ShowsError(ws[n], p) {
        var r: nat :| InErrorWindow(ws, ss, u, n - 1, p, r);
        assert InErrorWindow(ws, ss, u, n, p, r);
      } else if r: nat :| InErrorWindow(ws, ss, u, n, p, r) {
        assert InErrorWindow(ws, ss, u, n - 1, p, r);
      }
    }
  }

  /**
    A poll reads as the keeper's failure exactly when its first decisive look
    falls into such a window; later the same failure reads as an early exit.
   */
  lemma KeeperFailedIff(ws: seq<World>, ss: seq<Step>, u: nat, times: seq<nat>, i: nat)
    requires IsRun(ws, ss) && u < |ss| && ss[u].Unlink?
    requires AreTimes(ws, times) && forall t <- times :: u < t
    requires DecidedAt(PollsOf(ws, times), i)
    ensures VerdictOf(PollsOf(ws, times)[i]).KeeperFailed?
      <==> exists p: Pid, r: nat :: InErrorWindow(ws, ss, u, times[i], p, r)
  {
    var t := times[i];
    assert t in times;
    ErrorMeansEnding(ws, ss, u, t);
    if VerdictOf(ws[t].file).KeeperFailed? {
      ErrorShownIff(ws, ss, u, t, ws[t].file.value.pid.value);
    }
    if p: Pid, r: nat :| InErrorWindow(ws, ss, u, t, p, r) {
      ErrorShownIff(ws, ss, u, t, p);
    }
  }

  /** The spawned keeper claims, finds no config, reports it and closes. */
  function FailingKeeper(p: Pid): seq<Step> {
    [Act(p, Access(true)), Act(p, NoConfig), Act(p, Access(true)), Act(p, Access(true))]
  }

  /** A look before the report and the next one after the closing write: the error was there and is not seen. */
  lemma ReportedErrorReadsAsExit(w: World, setup: Setup)
    requires setup.pid !in w.keepers
    ensures
      var v0 := Connect(w, setup);
      var ss := FailingKeeper(setup.pid);
      && Continues(v0, ss) && Continues(v0, ss[..2]) && Continues(v0, ss[..3])
      && ShowsError(Final(v0, ss[..3]), setup.pid)
      && DecidedAt([Final(v0, ss[..2]).file, Final(v0, ss).file], 1)
      && VerdictOf(Final(v0, ss).file).ExitedEarly?
  {
    var p := setup.pid;
    var ss := FailingKeeper(p);
    var v0 := Connect(w, setup);
    var v1 := Next(v0, ss[0]);
    var v2 := Next(v1, ss[1]);
    var v3 := Next(v2, ss[2]);
    var v4 := Next(v3, ss[3]);
    FourSteps(v0, ss);
    assert v2.file.value.status.Connecting? && v3.file.value.status.Error? && v4.file.value.status.Exited?;
  }

  lemma FourSteps(w: World, ss: seq<Step>)
    requires |ss| == 4 && Enabled(w, ss[0]) && Enabled(Next(w, ss[0]), ss[1])
    requires Enabled(Next(Next(w, ss[0]), ss[1]), ss[2])
    requires Enabled(Next(Next(Next(w, ss[0]), ss[1]), ss[2]), ss[3])
    ensures Continues(w, ss) && Continues(w, ss[..2]) && Continues(w, ss[..3])
    ensures Final(w, ss[..2]) == Next(Next(w, ss[0]), ss[1])
    ensures Final(w, ss[..3]) == Next(Next(Next(w, ss[0]), ss[1]), ss[2])
    ensures Final(w, ss) == Next(Next(Next(Next(w, ss[0]), ss[1]), ss[2]), ss[3])
  {
    var w1 := Next(w, ss[0]);
    var w2 := Next(w1, ss[1]);
    var w3 := Next(w2, ss[2]);
    OneStep(Next(w3, ss[3]), []);
    OneStep(w3, []);
    OneStep(w2, []);
    Prepend(w3, ss[3], []);
    Prepend(w2, ss[2], [ss[3]]);
    Prepend(w2, ss[2], []);
    Prepend(w1, ss[1], [ss[2], ss[3]]);
    Prepend(w1, ss[1], [ss[2]]);
    Prepend(w1, ss[1], []);
    Prepend(w, ss[0], [ss[1], ss[2], ss[3]]);
    Prepend(w, ss[0], [ss[1], ss[2]]);
    Prepend(w, ss[0], [ss[1]]);
    assert ss == [ss[0]] + [ss[1], ss[2], ss[3]];
    assert ss[..3] == [ss[0]] + [ss[1], ss[2]];
    assert ss[..2] == [ss[0]] + [ss[1]];
  }

  lemma OneStep(w: World, ss: seq<Step>)
    requires ss == []
    ensures Continues(w, ss) && Final(w, ss) == w
  {}

  lemma Prepend(w: World, s: Step, rest: seq<Step>)
    requires Enabled(w, s) && Continues(Next(w, s), rest)
    ensures Continues(w, [s] + rest) && Final(w, [s] + rest) == Final(Next(w, s), rest)
  {
    assert ([s] + rest)[1..] == rest;
  }
}
