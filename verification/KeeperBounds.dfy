/**
  How often one keeper starts xray, how long it sleeps, and when exactly it
  re-arms: first for a keeper by itself, then inside every interleaving.
 */
module KeeperBounds {
  import opened Common
  import opened Keeper
  import opened KeeperWorld
  import opened KeeperProgram

  ghost function Starts(log: seq<Effect>): nat {
    if |log| == 0 then 0 else Starts(log[..|log| - 1]) + if log[|log| - 1].Start? then 1 else 0
  }

  ghost function Paused(log: seq<Effect>): nat {
    if |log| == 0 then 0
    else Paused(log[..|log| - 1]) + if log[|log| - 1].Pause? then log[|log| - 1].seconds else 0
  }

  lemma StepLog(k: Keeper, o: Observation, log: seq<Effect>)
    ensures Starts(log + EffectOf(k, o)) == Starts(log) + if o.input.Sent? then 1 else 0
    ensures Paused(log + EffectOf(k, o)) == Paused(log) + if o.input.Slept? then k.backoff else 0
  {
    var more := EffectOf(k, o);
    if more == [] {
      assert log + more == log;
    } else {
      assert (log + more)[..|log + more| - 1] == log;
    }
  }

  predicate Over(phase: Phase) {
    phase.Reporting? || phase.Closing? || phase.Done?
  }

  /** Seconds slept before the given attempt. */
  function SleptBefore(attempt: nat): nat {
    if attempt <= 1 then 0 else if attempt == 2 then 3 else 12
  }

  function BackoffIn(attempt: nat): nat {
    if attempt <= 1 then 3 else if attempt == 2 then 9 else 27
  }

  ghost predicate Budget(k: Keeper, starts: nat, paused: nat) {
    && starts <= k.attempts <= MAX_ATTEMPTS && paused <= 12
    && (k.phase.Claiming? || k.phase.Preparing? ==> k.attempts == 0)
    && (!k.phase.Claiming? && !k.phase.Preparing? && !Over(k.phase) ==> 0 < k.attempts)
    && (k.phase.Opening? || k.phase.Sending? ==> starts < k.attempts)
    && (k.phase.Sleeping? || k.phase.Rechecking? ==> k.attempts < MAX_ATTEMPTS)
    && (!Over(k.phase) && !k.phase.Rechecking? ==>
          paused == SleptBefore(k.attempts) && k.backoff == BackoffIn(k.attempts))
    && (k.phase.Rechecking? ==>
          paused == SleptBefore(k.attempts + 1) && k.backoff == BackoffIn(k.attempts + 1))
  }

  lemma BudgetStep(k: Keeper, o: Observation, starts: nat, paused: nat)
    requires Budget(k, starts, paused) && Accepts(k.phase, o.input)
    ensures Budget(Advance(k, o.file, o.input),
                   starts + (if o.input.Sent? then 1 else 0),
                   paused + (if o.input.Slept? then k.backoff else 0))
  {}

  lemma BudgetOneMore(path: seq<Keeper>, script: seq<Observation>, n: nat, log: seq<Effect>)
    requires 0 < n && Follows(path, script, n - 1) && Budget(path[n - 1], Starts(log), Paused(log))
    ensures var more := log + EffectOf(path[n - 1], script[n - 1]); Budget(path[n], Starts(more), Paused(more))
  {
    StepLog(path[n - 1], script[n - 1], log);
    BudgetStep(path[n - 1], script[n - 1], Starts(log), Paused(log));
  }

  lemma {:induction false} BudgetKept(path: seq<Keeper>, script: seq<Observation>, setup: Setup, n: nat)
    requires IsPath(path, script, setup) && n <= |script|
    ensures var log := LogOf(path, script, n); Budget(path[n], Starts(log), Paused(log))
  {
    if n > 0 {
      BudgetKept(path, script, setup, n - 1);
      BudgetOneMore(path, script, n, LogOf(path, script, n - 1));
    }
  }

  // ── When a keeper re-arms ──────────────────────────────────────────────────

  lemma AttemptsStep(k: Keeper, o: Observation)
    requires Accepts(k.phase, o.input)
    ensures var l := Advance(k, o.file, o.input);
      && k.attempts <= l.attempts && l.setup == k.setup
      && (Over(k.phase) ==> Over(l.phase) && l.attempts == k.attempts)
  {}

  lemma {:induction false} AttemptsGrow(path: seq<Keeper>, script: seq<Observation>, setup: Setup, a: nat, b: nat)
    requires IsPath(path, script, setup) && a <= b <= |script|
    ensures path[a].attempts <= path[b].attempts && path[b].setup == path[a].setup
    ensures Over(path[a].phase) ==> Over(path[b].phase) && path[b].attempts == path[a].attempts
  {
    if a < b {
      AttemptsGrow(path, script, setup, a, b - 1);
      assert Follows(path, script, b - 1);
      AttemptsStep(path[b - 1], script[b - 1]);
    }
  }

  lemma QuietStep(k: Keeper, o: Observation)
    requires InHold(k.phase) && Accepts(k.phase, o.input) && !EndsHold(o, k.setup)
    ensures var l := Advance(k, o.file, o.input);
      InHold(l.phase) && l.attempts == k.attempts && l.setup == k.setup
  {}

  lemma {:induction false} QuietHolds(path: seq<Keeper>, script: seq<Observation>, setup: Setup, a: nat, b: nat)
    requires IsPath(path, script, setup) && a <= b <= |script| && Quiet(script, a, b, setup)
    requires InHold(path[a].phase) && path[a].setup == setup
    ensures InHold(path[b].phase) && path[b].attempts == path[a].attempts && path[b].setup == setup
  {
    if a < b {
      QuietHolds(path, script, setup, a, b - 1);
      assert Follows(path, script, b - 1);
      QuietStep(path[b - 1], script[b - 1]);
    }
  }

  lemma EndStep(k: Keeper, o: Observation)
    requires InHold(k.phase) && Accepts(k.phase, o.input) && EndsHold(o, k.setup)
    ensures var l := Advance(k, o.file, o.input);
      && l.attempts == k.attempts && l.setup == k.setup
      && (if Died(o, k.setup) && k.attempts < MAX_ATTEMPTS then l.phase.Sleeping? else Over(l.phase))
  {}

  /** The session ends unexpectedly for the first time at e, and the file still names the keeper after the sleep. */
  ghost predicate RearmsAt(script: seq<Observation>, a: nat, e: nat, b: nat, setup: Setup) {
    && FirstEnd(script, a, e, setup) && Died(script[e], setup)
    && e + 3 <= b <= |script| && script[e + 2].file.Some? && script[e + 2].file.value.pid == Some(setup.pid)
  }

  /** A held session is followed by another attempt exactly under these conditions. */
  lemma RearmsIff(path: seq<Keeper>, script: seq<Observation>, setup: Setup, a: nat, b: nat)
    requires IsPath(path, script, setup) && a <= b <= |script|
    requires path[a].phase.Holding? && path[a].setup == setup
    ensures path[b].attempts > path[a].attempts <==>
      path[a].attempts < 3 && exists e :: RearmsAt(script, a, e, b, setup)
  {
    if e: nat :| FirstEnd(script, a, e, setup) && e < b {
      AfterFirstEnd(path, script, setup, a, e, b);
      forall e' | RearmsAt(script, a, e', b, setup) ensures e' == e {}
    } else {
      QuietUntil(script, a, b, setup);
      QuietHolds(path, script, setup, a, b);
    }
  }

  lemma {:induction false} QuietUntil(script: seq<Observation>, a: nat, b: nat, setup: Setup)
    requires a <= b <= |script| && forall e :: FirstEnd(script, a, e, setup) ==> b <= e
    ensures Quiet(script, a, b, setup)
  {
    if a < b {
      QuietUntil(script, a, b - 1, setup);
      if EndsHold(script[b - 1], setup) {
        assert FirstEnd(script, a, b - 1, setup);
      }
    }
  }

  lemma AfterFirstEnd(path: seq<Keeper>, script: seq<Observation>, setup: Setup, a: nat, e: nat, b: nat)
    requires IsPath(path, script, setup) && a <= e < b <= |script|
    requires path[a].phase.Holding? && path[a].setup == setup && FirstEnd(script, a, e, setup)
    ensures path[b].attempts > path[a].attempts <==>
      path[a].attempts < MAX_ATTEMPTS && RearmsAt(script, a, e, b, setup)
  {
    QuietHolds(path, script, setup, a, e);
    assert Follows(path, script, e);
    EndStep(path[e], script[e]);
    if Over(path[e + 1].phase) {
      AttemptsGrow(path, script, setup, e + 1, b);
    } else if e + 1 < b {
      assert Follows(path, script, e + 1);
      if e + 2 < b {
        assert Follows(path, script, e + 2);
        AttemptsGrow(path, script, setup, e + 3, b);
      }
    }
  }

  /** Once a stop that was asked for is the first thing to end a session, no start frame follows it. */
  lemma RequestedStopIsFinal(path: seq<Keeper>, script: seq<Observation>, setup: Setup, a: nat, e: nat)
    requires IsPath(path, script, setup) && path[0].setup == setup
    requires a < |path| && path[a].phase.Holding? && FirstEnd(script, a, e, setup)
    requires script[e].input.Received? && script[e].input.frame.Frame?
    requires script[e].input.frame.event == Some("stopped") || script[e].input.frame.data == "15"
    ensures forall i | e < i < |script| :: !script[i].input.Sent?
  {
    AttemptsGrow(path, script, setup, 0, a);
    QuietHolds(path, script, setup, a, e);
    assert Follows(path, script, e);
    EndStep(path[e], script[e]);
    forall i | e < i < |script| ensures !script[i].input.Sent? {
      AttemptsGrow(path, script, setup, e + 1, i);
      assert Follows(path, script, i);
    }
  }

  // ── The same inside an interleaving ────────────────────────────────────────

  /** What keeper p has observed in the first n steps of a run. */
  ghost function ScriptOf(ws: seq<World>, ss: seq<Step>, p: Pid, n: nat): seq<Observation>
    requires n <= |ss| && n <= |ws|
  {
    if n == 0 then [] else ScriptOf(ws, ss, p, n - 1) + NewAnswer(ws[n - 1], ss[n - 1], p)
  }

  ghost function NewAnswer(before: World, s: Step, p: Pid): seq<Observation> {
    if s.Act? && s.pid == p then [Observation(before.file, s.input)] else []
  }

  /** The states p went through. */
  ghost function PathOf(ws: seq<World>, ss: seq<Step>, p: Pid, n: nat): seq<Keeper>
    requires n <= |ss| && n < |ws|
  {
    if n == 0 then [] else PathOf(ws, ss, p, n - 1) + NewStates(ws[n], ss[n - 1], p)
  }

  ghost function NewStates(after: World, s: Step, p: Pid): seq<Keeper> {
    if ((s.Act? && s.pid == p) || (s.Spawn? && s.setup.pid == p)) && p in after.keepers
    then [after.keepers[p]] else []
  }

  /** p's own course is a run of the solitary machine; a kill only cuts it short. */
  ghost predicate Mirrored(ws: seq<World>, ss: seq<Step>, p: Pid, n: nat)
    requires n <= |ss| && n < |ws|
  {
    var path, script := PathOf(ws, ss, p, n), ScriptOf(ws, ss, p, n);
    if p !in ws[n].keepers then path == [] && script == []
    else
      var k := ws[n].keepers[p];
      && IsPath(path, script, k.setup)
      && (path[|script|] == k || path[|script|].(phase := Done) == k)
  }

  lemma ExtendPath(path: seq<Keeper>, script: seq<Observation>, setup: Setup, o: Observation)
    requires IsPath(path, script, setup) && Accepts(path[|script|].phase, o.input)
    ensures IsPath(path + [Advance(path[|script|], o.file, o.input)], script + [o], setup)
  {
    var path', script' := path + [Advance(path[|script|], o.file, o.input)], script + [o];
    forall i | 0 <= i < |script'| ensures Follows(path', script', i) {
      if i < |script| {
        assert Follows(path, script, i);
      }
    }
  }

  lemma ActMirrors(ws: seq<World>, ss: seq<Step>, p: Pid, n: nat, input: Input)
    requires IsRun(ws, ss) && 0 < n <= |ss| && Mirrored(ws, ss, p, n - 1)
    requires ss[n - 1] == Act(p, input)
    ensures Mirrored(ws, ss, p, n)
    ensures PathOf(ws, ss, p, n - 1)[|ScriptOf(ws, ss, p, n - 1)|] == ws[n - 1].keepers[p]
  {
    var path, script := PathOf(ws, ss, p, n - 1), ScriptOf(ws, ss, p, n - 1);
    assert Enabled(ws[n - 1], ss[n - 1]) && ws[n] == Next(ws[n - 1], ss[n - 1]);
    var k, o := ws[n - 1].keepers[p], Observation(ws[n - 1].file, input);
    assert path[|script|] == k;
    ExtendPath(path, script, k.setup, o);
    AttemptsStep(k, o);
    assert PathOf(ws, ss, p, n) == path + [Advance(k, o.file, o.input)];
    assert ScriptOf(ws, ss, p, n) == script + [o];
  }

  lemma NotActedKeeps(ws: seq<World>, ss: seq<Step>, p: Pid, n: nat)
    requires 0 < n <= |ss| && n < |ws|
    requires !(ss[n - 1].Act? && ss[n - 1].pid == p) && !(ss[n - 1].Spawn? && ss[n - 1].setup.pid == p)
    ensures ScriptOf(ws, ss, p, n) == ScriptOf(ws, ss, p, n - 1)
    ensures PathOf(ws, ss, p, n) == PathOf(ws, ss, p, n - 1)
  {}

  lemma SpawnedStarts(ws: seq<World>, ss: seq<Step>, p: Pid, n: nat)
    requires 0 < n <= |ss| && n < |ws| && Mirrored(ws, ss, p, n - 1)
    requires ss[n - 1].Spawn? && ss[n - 1].setup.pid == p
    requires Enabled(ws[n - 1], ss[n - 1]) && ws[n] == Next(ws[n - 1], ss[n - 1])
    ensures Mirrored(ws, ss, p, n)
  {
    assert PathOf(ws, ss, p, n) == [Started(ss[n - 1].setup)];
    assert ScriptOf(ws, ss, p, n) == [];
  }

  lemma OtherStepMirrors(ws: seq<World>, ss: seq<Step>, p: Pid, n: nat)
    requires IsRun(ws, ss) && 0 < n <= |ss| && Mirrored(ws, ss, p, n - 1)
    requires !(ss[n - 1].Act? && ss[n - 1].pid == p)
    ensures Mirrored(ws, ss, p, n)
  {
    var s := ss[n - 1];
    assert Enabled(ws[n - 1], s) && ws[n] == Next(ws[n - 1], s);
    if s.Spawn? && s.setup.pid == p {
      SpawnedStarts(ws, ss, p, n);
    } else {
      NotActedKeeps(ws, ss, p, n);
    }
  }

  lemma {:induction false} KeeperRunsMirrorSolo(ws: seq<World>, ss: seq<Step>, p: Pid, n: nat)
    requires IsRun(ws, ss) && n <= |ss|
    ensures Mirrored(ws, ss, p, n)
  {
    if n > 0 {
      KeeperRunsMirrorSolo(ws, ss, p, n - 1);
      var s := ss[n - 1];
      if s.Act? && s.pid == p {
        ActMirrors(ws, ss, p, n, s.input);
      } else {
        OtherStepMirrors(ws, ss, p, n);
      }
    }
  }

  /** Start frames p sent, and seconds it slept, in the first n steps. */
  ghost function StartsIn(ss: seq<Step>, p: Pid, n: nat): nat
    requires n <= |ss|
  {
    if n == 0 then 0 else StartsIn(ss, p, n - 1) + if IsStart(ss[n - 1], p) then 1 else 0
  }

  ghost function SleptAt(before: World, s: Step, p: Pid): nat {
    if s == Act(p, Slept) && p in before.keepers then before.keepers[p].backoff else 0
  }

  ghost function SleptIn(ws: seq<World>, ss: seq<Step>, p: Pid, n: nat): nat
    requires n <= |ss| && n <= |ws|
  {
    if n == 0 then 0 else SleptIn(ws, ss, p, n - 1) + SleptAt(ws[n - 1], ss[n - 1], p)
  }

  ghost function WorldLog(ws: seq<World>, ss: seq<Step>, p: Pid, n: nat): seq<Effect>
    requires n <= |ss| && n < |ws|
    requires |ScriptOf(ws, ss, p, n)| <= |PathOf(ws, ss, p, n)|
  {
    LogOf(PathOf(ws, ss, p, n), ScriptOf(ws, ss, p, n), |ScriptOf(ws, ss, p, n)|)
  }

  lemma {:induction false} LogOfPrefix(path: seq<Keeper>, k: Keeper, script: seq<Observation>, o: Observation, n: nat)
    requires n <= |script| < |path|
    ensures LogOf(path + [k], script + [o], n) == LogOf(path, script, n)
  {
    if n > 0 {
      LogOfPrefix(path, k, script, o, n - 1);
    }
  }

  lemma ActLog(ws: seq<World>, ss: seq<Step>, p: Pid, n: nat, input: Input)
    requires IsRun(ws, ss) && 0 < n <= |ss| && Mirrored(ws, ss, p, n - 1)
    requires ss[n - 1] == Act(p, input)
    ensures Mirrored(ws, ss, p, n)
    ensures WorldLog(ws, ss, p, n) ==
      WorldLog(ws, ss, p, n - 1) + EffectOf(ws[n - 1].keepers[p], Observation(ws[n - 1].file, input))
  {
    ActMirrors(ws, ss, p, n, input);
    var path, script := PathOf(ws, ss, p, n - 1), ScriptOf(ws, ss, p, n - 1);
    var o := Observation(ws[n - 1].file, input);
    assert PathOf(ws, ss, p, n) == path + [ws[n].keepers[p]];
    assert ScriptOf(ws, ss, p, n) == script + [o];
    LogOfPrefix(path, ws[n].keepers[p], script, o, |script|);
  }

  /** The counts over the run are the counts in the keeper's own log. */
  lemma {:induction false} WorldCounts(ws: seq<World>, ss: seq<Step>, p: Pid, n: nat)
    requires IsRun(ws, ss) && n <= |ss| && p in ws[n].keepers
    ensures Mirrored(ws, ss, p, n)
    ensures StartsIn(ss, p, n) == Starts(WorldLog(ws, ss, p, n))
    ensures SleptIn(ws, ss, p, n) == Paused(WorldLog(ws, ss, p, n))
  {
    KeeperRunsMirrorSolo(ws, ss, p, n);
    var s, w := ss[n - 1], ws[n - 1];
    assert Enabled(w, s) && ws[n] == Next(w, s);
    if p !in w.keepers {
      NothingYet(ws, ss, p, n - 1);
      KeeperRunsMirrorSolo(ws, ss, p, n - 1);
    } else {
      WorldCounts(ws, ss, p, n - 1);
      if s.Act? && s.pid == p {
        ActLog(ws, ss, p, n, s.input);
        StepLog(w.keepers[p], Observation(w.file, s.input), WorldLog(ws, ss, p, n - 1));
      } else {
        assert ScriptOf(ws, ss, p, n) == ScriptOf(ws, ss, p, n - 1);
        assert PathOf(ws, ss, p, n) == PathOf(ws, ss, p, n - 1);
      }
    }
  }

  lemma {:induction false} NothingYet(ws: seq<World>, ss: seq<Step>, p: Pid, n: nat)
    requires IsRun(ws, ss) && n <= |ss| && p !in ws[n].keepers
    ensures StartsIn(ss, p, n) == 0 && SleptIn(ws, ss, p, n) == 0
  {
    if n > 0 {
      NothingYet(ws, ss, p, n - 1);
    }
  }

  /** In every interleaving a keeper sends at most three start frames and sleeps at most 3 + 9 seconds. */
  lemma KeeperBudget(ws: seq<World>, ss: seq<Step>, p: Pid, n: nat)
    requires IsRun(ws, ss) && n <= |ss| && p in ws[n].keepers
    ensures StartsIn(ss, p, n) <= 3 && SleptIn(ws, ss, p, n) <= 3 + 9
  {
    WorldCounts(ws, ss, p, n);
    var path, script := PathOf(ws, ss, p, n), ScriptOf(ws, ss, p, n);
    BudgetKept(path, script, ws[n].keepers[p].setup, |script|);
  }
}
