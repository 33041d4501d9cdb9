/**
  What any course of one keeper shows, said of its answers and its records
  alone: what each record names, which errors are recorded, which writes land,
  and that the whole budget of attempts can be used.
 */
module KeeperCourse {
  import opened Common
  import opened Keeper
  import opened KeeperProgram
  import opened KeeperBounds

  // ── Where an answer can come ───────────────────────────────────────────────

  /** For every kind of answer, the phases in which it can come; nothing the outside could do is excluded. */
  lemma AnswerComesIff(phase: Phase, input: Input)
    ensures input.Broken? || input.Crashed? ==>
      (Accepts(phase, input) <==> phase.AwaitingAck? || phase in {Preparing, Opening, Sending, Holding, CheckingIface})
    ensures input.Access? ==>
      (Accepts(phase, input) <==>
        phase.Announcing? || phase.Reporting? || phase in {Claiming, CheckingOwner, Rechecking, Closing})
    ensures input.Silence? || input.Received? ==> (Accepts(phase, input) <==> phase.AwaitingAck? || phase.Holding?)
    ensures input.Deadline? ==> (Accepts(phase, input) <==> phase.AwaitingAck?)
    ensures input.Prepared? || input.NoConfig? || input.Rejected? ==> (Accepts(phase, input) <==> phase.Preparing?)
    ensures input.Opened? ==> (Accepts(phase, input) <==> phase.Opening?)
    ensures input.Sent? ==> (Accepts(phase, input) <==> phase.Sending?)
    ensures input.IfaceSeen? ==> (Accepts(phase, input) <==> phase.CheckingIface?)
    ensures input.Slept? ==> (Accepts(phase, input) <==> phase.Sleeping?)
  {}

  // ── What the records name ──────────────────────────────────────────────────

  /** Observation j brings an ack that carries the request id of a start frame sent by observation i. */
  ghost predicate AckedBy(script: seq<Observation>, i: nat, j: nat, r: RequestId) {
    && i < j < |script| && script[i].input == Sent(r)
    && script[j].input.Received? && script[j].input.frame.Frame? && script[j].input.frame.requestId == Some(r)
    && (script[j].input.frame.status == Some("started") || script[j].input.frame.status == Some("success"))
  }

  ghost predicate Acked(script: seq<Observation>, n: nat) {
    exists i: nat, j: nat, r :: j < n && AckedBy(script, i, j, r)
  }

  ghost predicate SentOnly(script: seq<Observation>, n: nat, r: RequestId) {
    forall i: nat | i < n && i < |script| && script[i].input.Sent? :: script[i].input == Sent(r)
  }

  /** Before the first ack the record names what the keeper was started with, from then on what the config says. */
  ghost predicate Names(state: Record, setup: Setup, acked: bool) {
    && state.pid == Some(setup.pid)
    && state.server == (if acked then setup.server else if setup.kind.Keys? then setup.serverId else None)
    && state.subscription == (if acked && setup.kind.Happ? then setup.subscription else None)
  }

  /** Where a keeper can be, and with which status, before and after its first ack. */
  ghost predicate Fits(k: Keeper, acked: bool) {
    match k.phase
    case Claiming | Preparing => k.state.status.Connecting? && !acked
    case Opening | Sending | AwaitingAck(_) => if acked then k.state.status.Connected? else k.state.status.Connecting?
    case Announcing(_) | Holding | CheckingOwner | CheckingIface | Sleeping | Rechecking =>
      k.state.status.Connected? && acked
    case Reporting(_) => k.state.status.Error?
    case Closing => k.state.status.Error? || (k.state.status.Connected? && acked)
    case Done => k.state.status.Exited?
  }

  /** The start frames sent so far: none before the first, that one while its ack is awaited. */
  ghost predicate SentFits(k: Keeper, script: seq<Observation>, n: nat, acked: bool) {
    && (k.phase.AwaitingAck? ==> exists i: nat :: i < n && i < |script| && script[i].input == Sent(k.phase.request))
    && (k.phase.AwaitingAck? && !acked ==> SentOnly(script, n, k.phase.request))
    && (k.phase.Claiming? || k.phase.Preparing? || ((k.phase.Opening? || k.phase.Sending?) && !acked) ==>
          forall i: nat | i < n && i < |script| :: !script[i].input.Sent?)
  }

  ghost predicate Told(k: Keeper, setup: Setup, script: seq<Observation>, n: nat, acked: bool) {
    k.setup == setup && Names(k.state, setup, acked) && Fits(k, acked) && SentFits(k, script, n, acked)
  }

  /** One observation more makes an ack out of what was none exactly when it is one. */
  lemma AckedOneMore(script: seq<Observation>, n: nat)
    requires n < |script|
    ensures Acked(script, n + 1) <==> Acked(script, n) || exists i: nat, r :: AckedBy(script, i, n, r)
  {
    if i: nat, j: nat, r :| j < n && AckedBy(script, i, j, r) {
      assert j < n + 1 && AckedBy(script, i, j, r);
    }
    if i: nat, r :| AckedBy(script, i, n, r) {
      assert n < n + 1 && AckedBy(script, i, n, r);
    }
  }

  lemma ToldStep(k: Keeper, setup: Setup, script: seq<Observation>, n: nat, before: bool, after: bool)
    requires n < |script| && Told(k, setup, script, n, before) && Accepts(k.phase, script[n].input)
    requires after <==> before || exists i: nat, r :: AckedBy(script, i, n, r)
    ensures Told(Advance(k, script[n].file, script[n].input), setup, script, n + 1, after)
  {
    var l := Advance(k, script[n].file, script[n].input);
    if k.phase.AwaitingAck? && script[n].input.Received? {
      var i: nat :| i < n && i < |script| && script[i].input == Sent(k.phase.request);
      assert l.phase.Announcing? ==> AckedBy(script, i, n, k.phase.request);
    }
    if k.phase.Sending? && l.phase.AwaitingAck? {
      assert script[n].input == Sent(l.phase.request);
    }
  }

  /** On every course: the record names what the keeper was started with, from the first ack on what the config says. */
  lemma {:induction false} CourseTold(path: seq<Keeper>, script: seq<Observation>, setup: Setup, n: nat)
    requires IsPath(path, script, setup) && n < |path|
    ensures Told(path[n], setup, script, n, Acked(script, n))
    ensures path[n].state.status.Connected? ==> path[n].state.server == setup.server
    ensures path[n].state.status.Connected? && setup.kind.Happ? ==> path[n].state.subscription == setup.subscription
  {
    if n > 0 {
      CourseTold(path, script, setup, n - 1);
      assert Follows(path, script, n - 1);
      AckedOneMore(script, n - 1);
      ToldStep(path[n - 1], setup, script, n - 1, Acked(script, n - 1), Acked(script, n));
    }
  }

  /** So does every record that reaches the file: "connected" ones name the config's server and come after an ack. */
  lemma {:induction false} WrittenRecordsName(path: seq<Keeper>, script: seq<Observation>, setup: Setup, n: nat, i: nat)
    requires IsPath(path, script, setup) && n <= |script|
    requires i < |LogOf(path, script, n)| && LogOf(path, script, n)[i].Wrote?
    ensures
      var record := LogOf(path, script, n)[i].record;
      && record.pid == Some(setup.pid)
      && (record.status.Connected? ==> Acked(script, n) && Names(record, setup, true))
      && (record.status.Connecting? ==> Names(record, setup, false))
  {
    if i < |LogOf(path, script, n - 1)| {
      WrittenRecordsName(path, script, setup, n - 1, i);
      AckedOneMore(script, n - 1);
    } else {
      CourseTold(path, script, setup, n - 1);
      AckedOneMore(script, n - 1);
    }
  }

  /**
    How a course begins. Without a config, or with one xray refuses, it ends in an
    error; the key keeper reports the former without a look at the file.
   */
  lemma PreparationLeads(path: seq<Keeper>, script: seq<Observation>, setup: Setup)
    requires IsPath(path, script, setup) && |script| > 1
    ensures path[1].phase.Preparing? && path[1].state == path[0].state
    ensures
      match script[1].input
      case Prepared(iface) => path[2].phase.Opening? && path[2].attempts == 1 && path[2].state == path[0].state
      case NoConfig => path[2].phase == Reporting(setup.kind.Happ?) && path[2].state.status.Error?
      case _ => path[2].phase == Reporting(true) && path[2].state.status.Error?
  {
    assert Follows(path, script, 0) && Follows(path, script, 1);
  }

  /** After an ack the session is held, whether or not its record reached the file. */
  lemma AnnouncedIsHeld(path: seq<Keeper>, script: seq<Observation>, setup: Setup, n: nat)
    requires IsPath(path, script, setup) && n < |script| && path[n].phase.Announcing?
    ensures script[n].input.Access? && path[n + 1] == path[n].(phase := Holding)
  {
    assert Follows(path, script, n);
  }

  // ── Which errors are recorded, and which writes land ───────────────────────

  /** A lost connection is recorded as an error exactly before the first ack, any other exception always. */
  lemma LostConnectionRecordedIff(path: seq<Keeper>, script: seq<Observation>, setup: Setup, n: nat)
    requires IsPath(path, script, setup) && n < |script| && (script[n].input.Broken? || script[n].input.Crashed?)
    ensures path[n + 1].phase ==
      if script[n].input.Broken? && Acked(script, n) then Closing else Reporting(true)
    ensures path[n + 1].state.status == if path[n + 1].phase.Closing? then Connected else Error
  {
    CourseTold(path, script, setup, n);
    assert Follows(path, script, n);
  }

  /** What the wait for the ack makes of each answer: only a frame with the request id or the deadline ends it. */
  lemma AckWaitEndsIff(path: seq<Keeper>, script: seq<Observation>, setup: Setup, n: nat, r: RequestId)
    requires IsPath(path, script, setup) && n < |script| && path[n].phase == AwaitingAck(r)
    requires !script[n].input.Broken? && !script[n].input.Crashed?
    ensures path[n + 1].phase == Announcing(r) <==> exists i: nat :: AckedBy(script, i, n, r)
    ensures path[n + 1].phase == Reporting(true) <==>
      || script[n].input.Deadline?
      || (script[n].input.Received? && script[n].input.frame.Frame? && script[n].input.frame.requestId == Some(r)
          && script[n].input.frame.status != Some("started") && script[n].input.frame.status != Some("success"))
    ensures path[n + 1].phase != Announcing(r) && path[n + 1].phase != Reporting(true) ==> path[n + 1] == path[n]
  {
    CourseTold(path, script, setup, n);
    assert Follows(path, script, n);
    var i: nat :| i < n && i < |script| && script[i].input == Sent(r);
    assert AckedBy(script, i, n, r) <==> path[n + 1].phase == Announcing(r);
  }

  /** A record lands in the file when the disk takes it and the file names no other process; the claim always lands. */
  lemma WriteLandsIff(path: seq<Keeper>, script: seq<Observation>, setup: Setup, n: nat)
    requires IsPath(path, script, setup) && n < |script| && script[n].input.Access?
    requires path[n].phase.Announcing? || path[n].phase == Reporting(true) || path[n].phase.Closing? || n == 0
    ensures
      var file := script[n].file;
      var landed := EffectOf(path[n], script[n]);
      if script[n].input.written && (n == 0 || file.None? || file.value.pid.None? || file.value.pid == Some(setup.pid))
      then |landed| == 1 && landed[0].Wrote? else landed == []
    ensures n == 0 && script[0].input.written ==>
      LogOf(path, script, 1) ==
        [Wrote(Record(Some(setup.pid), Connecting, if setup.kind.Keys? then setup.serverId else None, None))]
  {
    CourseTold(path, script, setup, n);
    assert Follows(path, script, n);
    assert LogOf(path, script, 0) == [];
  }

  /** A process that is gone tried an "exited" record last of all, with the names it had. */
  lemma {:induction false} GoneMeansExited(path: seq<Keeper>, script: seq<Observation>, setup: Setup, n: nat)
    requires IsPath(path, script, setup) && n < |path| && path[n].phase.Done?
    ensures n == |script| > 0 && path[n - 1].phase.Closing? && script[n - 1].input.Access?
    ensures path[n].state == path[n - 1].state.(status := Exited)
    ensures script[n - 1].input.written && script[n - 1].file.None? ==>
      EffectOf(path[n - 1], script[n - 1]) == [Wrote(path[n].state)]
  {
    assert n < |script| ==> Follows(path, script, n);
    CourseTold(path, script, setup, n - 1);
    assert Follows(path, script, n - 1);
  }

  /** And whoever is closing is gone after the next step. */
  lemma ClosingEnds(path: seq<Keeper>, script: seq<Observation>, setup: Setup, n: nat)
    requires IsPath(path, script, setup) && n < |script| && path[n].phase.Closing?
    ensures path[n + 1].phase.Done? && path[n + 1].state.status.Exited? && n + 1 == |script|
  {
    assert Follows(path, script, n);
    assert n + 1 < |script| ==> Follows(path, script, n + 1);
  }

  // ── The idle tick of a held session ────────────────────────────────────────

  /**
    Every silence makes the keeper look at the file: one that does not name it
    ends the session, otherwise a known interface is looked for, and a missing
    one counts as a death of the tunnel.
   */
  lemma SilenceIsChecked(path: seq<Keeper>, script: seq<Observation>, setup: Setup, n: nat)
    requires IsPath(path, script, setup) && n + 2 < |script| && path[n].phase.Holding? && script[n].input.Silence?
    ensures script[n + 1].input.Access?
    ensures
      var file, k := script[n + 1].file, path[n];
      if file.None? || file.value.pid != Some(setup.pid) then path[n + 2] == k.(phase := Closing)
      else if k.iface.None? then path[n + 2] == k
      else
        match script[n + 2].input
        case IfaceSeen(true) => path[n + 3] == k
        case IfaceSeen(false) => path[n + 3] == k.(phase := if k.attempts >= 3 then Closing else Sleeping)
        case answer => answer.Broken? || answer.Crashed?
  {
    CourseTold(path, script, setup, n);
    assert Follows(path, script, n) && Follows(path, script, n + 1) && Follows(path, script, n + 2);
  }

  /** The interface it looks for is the one the config was found to have. */
  lemma {:induction false} IfaceIsPrepared(path: seq<Keeper>, script: seq<Observation>, setup: Setup, n: nat)
    requires IsPath(path, script, setup) && n < |path|
    ensures path[n].attempts > 0 ==>
      n > 1 && script[1].input == Prepared(path[n].iface) && !path[n].phase.Claiming? && !path[n].phase.Preparing?
    ensures path[n].attempts == 0 ==>
      (n == 0 && path[n].phase.Claiming?) || (n == 1 && path[n].phase.Preparing?) || Over(path[n].phase)
  {
    if n > 0 {
      IfaceIsPrepared(path, script, setup, n - 1);
      assert Follows(path, script, n - 1);
    }
  }

  // ── The budget is used up ──────────────────────────────────────────────────

  lemma Extend(path: seq<Keeper>, script: seq<Observation>, setup: Setup, o: Observation)
    returns (path': seq<Keeper>, script': seq<Observation>)
    requires IsPath(path, script, setup) && Accepts(path[|script|].phase, o.input)
    ensures IsPath(path', script', setup) && path'[|script'|] == Advance(path[|script|], o.file, o.input)
    ensures
      var log, log' := LogOf(path, script, |script|), LogOf(path', script', |script'|);
      && Starts(log') == Starts(log) + (if o.input.Sent? then 1 else 0)
      && Paused(log') == Paused(log) + (if o.input.Slept? then path[|script|].backoff else 0)
  {
    var k := Advance(path[|script|], o.file, o.input);
    path', script' := path + [k], script + [o];
    ExtendPath(path, script, setup, o);
    LogOfPrefix(path, k, script, o, |script|);
    StepLog(path[|script|], o, LogOf(path, script, |script|));
  }

  /** A start frame, its ack, and the hold. */
  lemma OneSession(path: seq<Keeper>, script: seq<Observation>, setup: Setup)
    returns (path': seq<Keeper>, script': seq<Observation>)
    requires IsPath(path, script, setup) && path[|script|].phase.Opening?
    ensures IsPath(path', script', setup)
    ensures
      var k, l := path[|script|], path'[|script'|];
      l.phase.Holding? && l.setup == k.setup && l.attempts == k.attempts && l.backoff == k.backoff
    ensures
      var log, log' := LogOf(path, script, |script|), LogOf(path', script', |script'|);
      Starts(log') == Starts(log) + 1 && Paused(log') == Paused(log)
  {
    path', script' := Extend(path, script, setup, Observation(None, Opened));
    path', script' := Extend(path', script', setup, Observation(None, Sent(0)));
    var ack := Frame(None, None, "", Some(0), Some("started"));
    path', script' := Extend(path', script', setup, Observation(None, Received(ack)));
    path', script' := Extend(path', script', setup, Observation(None, Access(true)));
  }

  /** An unexpected end, the sleep, and the look that finds the file still its own. */
  lemma OneRearm(path: seq<Keeper>, script: seq<Observation>, setup: Setup)
    returns (path': seq<Keeper>, script': seq<Observation>)
    requires IsPath(path, script, setup) && path[|script|].phase.Holding? && path[|script|].attempts < 3
    requires path[|script|].setup == setup
    ensures IsPath(path', script', setup)
    ensures
      var k, l := path[|script|], path'[|script'|];
      l.phase.Opening? && l.setup == k.setup && l.attempts == k.attempts + 1 && l.backoff == Min(3 * k.backoff, 30)
    ensures
      var log, log' := LogOf(path, script, |script|), LogOf(path', script', |script'|);
      Starts(log') == Starts(log) && Paused(log') == Paused(log) + path[|script|].backoff
  {
    var own := Some(Record(Some(setup.pid), Connected, None, None));
    var end := Frame(None, Some("finished"), "1", None, None);
    path', script' := Extend(path, script, setup, Observation(own, Received(end)));
    path', script' := Extend(path', script', setup, Observation(own, Slept));
    path', script' := Extend(path', script', setup, Observation(own, Access(false)));
  }

  /** The bounds are the exact ones: some course has three start frames and 3 + 9 seconds of sleep. */
  lemma BudgetCanBeUsedUp(setup: Setup)
    ensures exists path, script | IsPath(path, script, setup) ::
      Starts(LogOf(path, script, |script|)) == 3 && Paused(LogOf(path, script, |script|)) == 3 + 9
  {
    var path, script := [Started(setup)], [];
    assert IsPath(path, script, setup) && LogOf(path, script, 0) == [];
    path, script := Extend(path, script, setup, Observation(None, Access(true)));
    path, script := Extend(path, script, setup, Observation(None, Prepared(None)));
    path, script := OneSession(path, script, setup);
    path, script := OneRearm(path, script, setup);
    path, script := OneSession(path, script, setup);
    path, script := OneRearm(path, script, setup);
    path, script := OneSession(path, script, setup);
  }
}
