/**
  run_keeper and _hold_session in the form they have in the
  program, on a script of what the outside answers. The keeper program refines
  the step machine, so all that holds of the machine holds of it.
 */
module KeeperProgram {
  import opened Common
  import opened Keeper

  /** What the state file held just before a step, and what the outside answered. */
  datatype Observation = Observation(file: Option<Record>, input: Input)

  datatype Effect = Wrote(record: Record) | Start(request: RequestId) | Pause(seconds: nat)

  /** The i-th answer fits the phase it meets, and the machine takes it. */
  ghost predicate Follows(path: seq<Keeper>, script: seq<Observation>, i: nat) {
    && i < |script| < |path|
    && Accepts(path[i].phase, script[i].input)
    && path[i + 1] == Advance(path[i], script[i].file, script[i].input)
  }

  /** path[i] is the machine before the i-th observation. */
  ghost predicate IsPath(path: seq<Keeper>, script: seq<Observation>, setup: Setup) {
    && |path| == |script| + 1 && path[0] == Started(setup)
    && forall i | 0 <= i < |script| :: Follows(path, script, i)
  }

  function EffectOf(k: Keeper, o: Observation): seq<Effect> {
    match o.input
    case Access(written) =>
      if written && Writes(k).Some? && (Unguarded(k.phase) || Replaceable(o.file, k.setup.pid))
      then [Wrote(Writes(k).value)] else []
    case Sent(request) => [Start(request)]
    case Slept => [Pause(k.backoff)]
    case _ => []
  }

  /** What the machine did to the outside in its first n steps. */
  ghost function LogOf(path: seq<Keeper>, script: seq<Observation>, n: nat): seq<Effect>
    requires n <= |path| && n <= |script|
  {
    if n == 0 then [] else LogOf(path, script, n - 1) + EffectOf(path[n - 1], script[n - 1])
  }

  // ── The end of a held session ──────────────────────────────────────────────

  /** An observation that ends a held session, wherever in the session it comes. */
  predicate EndsHold(o: Observation, setup: Setup) {
    match o.input
    case Received(Frame(process, event, _, _, _)) =>
      (process.None? || process == Some(setup.processId)) && (event == Some("stopped") || event == Some("finished"))
    case Access(_) => o.file.None? || o.file.value.pid != Some(setup.pid)
    case IfaceSeen(up) => !up
    case Broken | Crashed => true
    case _ => false
  }

  /** The ends worth re-arming after: xray ended, and not by the SIGTERM of a stop, or its tunnel is gone. */
  predicate Died(o: Observation, setup: Setup) {
    match o.input
    case Received(Frame(process, event, data, _, _)) =>
      (process.None? || process == Some(setup.processId)) && event == Some("finished") && data != "15"
    case IfaceSeen(up) => !up
    case _ => false
  }

  /** Nothing from position a up to b ends the session. */
  ghost predicate Quiet(obs: seq<Observation>, a: nat, b: nat, setup: Setup) {
    b <= |obs| && forall i | a <= i < b :: !EndsHold(obs[i], setup)
  }

  /** Position e is the first end from position a on. */
  ghost predicate FirstEnd(obs: seq<Observation>, a: nat, e: nat, setup: Setup) {
    a <= e < |obs| && EndsHold(obs[e], setup) && Quiet(obs, a, e, setup)
  }

  datatype HoldResult =
    | Ended(died: bool)
    | Threw(input: Input)
    | Unfinished(phase: Phase)  // the script stops inside the session

  // ── The program ────────────────────────────────────────────────────────────

  /** What a frame means for the held session: None to go on, else whether xray died. */
  method Judge(frame: Frame, processId: string) returns (died: Option<bool>)
    ensures died.None? <==>
      || frame.Malformed? || (frame.processId.Some? && frame.processId != Some(processId))
      || (frame.event != Some("stopped") && frame.event != Some("finished"))
    ensures died.Some? ==> (died.value <==> frame.event == Some("finished") && frame.data != "15")
  {
    if frame.Malformed? || (frame.processId.Some? && frame.processId.value != processId) { return None; }
    if frame.event == Some("stopped") { return Some(false); }
    if frame.event == Some("finished") {
      if frame.data == SIGTERM_EXIT { return Some(false); }
      return Some(true);
    }
    return None;
  }

  /** _hold_session, reading the script from `start` on. It ends at the first observation that ends it. */
  method HoldSession(setup: Setup, iface: Option<string>, script: seq<Observation>, start: nat, ghost path: seq<Keeper>)
    returns (r: HoldResult, pos: nat)
    requires IsPath(path, script, setup) && start <= |script|
    requires path[start].phase.Holding? && path[start].iface == iface && path[start].setup == setup
    ensures r.Unfinished? ==> pos == |script| && Quiet(script, start, pos, setup)
    ensures !r.Unfinished? ==> start < pos <= |script| && FirstEnd(script, start, pos - 1, setup)
    ensures r.Ended? ==> r.died == Died(script[pos - 1], setup)
    ensures r.Ended? ==> path[pos] == if r.died then AfterDeath(path[start]) else path[start].(phase := Closing)
    ensures r.Threw? ==> r.input == script[pos - 1].input && Raised(r.input) && path[pos] == Raise(path[start], r.input)
    ensures r.Unfinished? ==> path[pos] == path[start].(phase := r.phase)
  {
    pos := start;
    while true
      invariant start <= pos <= |script| && path[pos] == path[start]
      invariant Quiet(script, start, pos, setup)
      decreases |script| - pos
    {
      if pos == |script| { return Unfinished(Holding), pos; }
      assert Follows(path, script, pos);
      var answer := script[pos].input;
      pos := pos + 1;
      if Raised(answer) { return Threw(answer), pos; }
      if answer.Silence? {
        if pos == |script| { return Unfinished(CheckingOwner), pos; }
        assert Follows(path, script, pos);
        var current := script[pos].file;
        pos := pos + 1;
        if !Owns(current, setup.pid) { return Ended(false), pos; }
        if iface.Some? {
          if pos == |script| { return Unfinished(CheckingIface), pos; }
          assert Follows(path, script, pos);
          answer := script[pos].input;
          pos := pos + 1;
          if Raised(answer) { return Threw(answer), pos; }
          if !answer.up { return Ended(true), pos; }
        }
        continue;
      }
      var verdict := Judge(answer.frame, setup.processId);
      if verdict.Some? { return Ended(verdict.value), pos; }
    }
  }

  /** The local variables of run_keeper. */
  datatype Vars = Vars(state: Record, iface: Option<string>, attempts: nat, backoff: nat)

  function Here(setup: Setup, v: Vars, phase: Phase): Keeper {
    Keeper(setup, phase, v.state, v.iface, v.attempts, v.backoff)
  }

  /** How a part of the program ended: on to the finally clause, by an exception, or with the script. */
  datatype Exit = Left | Raising(input: Input) | CutOff(phase: Phase) | Onward

  /** Where the step machine is when a part of the program ends that way. */
  predicate Settled(k: Keeper, setup: Setup, v: Vars, exit: Exit) {
    match exit
    case Left => k == Here(setup, v, Closing)
    case Raising(input) => Raised(input) && k == Raise(Here(setup, v, Closing), input)
    case CutOff(phase) => k == Here(setup, v, phase)
    case Onward => true
  }

  /** The effects of the program so far are those of the machine. */
  ghost predicate Logged(log: seq<Effect>, path: seq<Keeper>, script: seq<Observation>, pos: nat) {
    pos <= |script| < |path| && log == LogOf(path, script, pos)
  }

  /** _write_own_keeper_state, or the plain write when `own` is false. */
  method WriteState(setup: Setup, state: Record, own: bool, o: Observation, log: seq<Effect>, ghost k: Keeper)
    returns (log': seq<Effect>)
    requires k.setup == setup && Writes(k) == Some(state) && own == !Unguarded(k.phase)
    requires Accepts(k.phase, o.input)
    ensures log' == log + EffectOf(k, o)
  {
    var current := o.file;
    if own && current.Some? && current.value.pid.Some? && current.value.pid != Some(setup.pid) {
      return log;
    }
    if o.input.written { return log + [Wrote(state)]; }
    return log;
  }

  /** The error branches inside the try block: record it and leave. */
  method Report(setup: Setup, vars: Vars, own: bool, script: seq<Observation>, start: nat, log: seq<Effect>,
                ghost path: seq<Keeper>)
    returns (exit: Exit, v: Vars, pos: nat, log': seq<Effect>)
    requires IsPath(path, script, setup) && start <= |script| && Logged(log, path, script, start)
    requires path[start] == Fail(Here(setup, vars, Closing), own)
    ensures start <= pos <= |script| && Logged(log', path, script, pos)
    ensures Settled(path[pos], setup, v, exit) && (exit.Left? || (exit.CutOff? && pos == |script|))
  {
    v, pos, log' := vars.(state := vars.state.(status := Error)), start, log;
    if pos == |script| { return CutOff(Reporting(own)), v, pos, log'; }
    assert Follows(path, script, pos);
    log' := WriteState(setup, v.state, own, script[pos], log, path[pos]);
    pos := pos + 1;
    exit := Left;
  }

  /** The while loop that waits for the ack: nothing but frames, timeouts and the clock. */
  method AwaitAck(setup: Setup, vars: Vars, request: RequestId, script: seq<Observation>, start: nat, log: seq<Effect>,
                  ghost path: seq<Keeper>)
    returns (exit: Exit, v: Vars, pos: nat, log': seq<Effect>)
    requires IsPath(path, script, setup) && start <= |script| && Logged(log, path, script, start)
    requires path[start] == Here(setup, vars, AwaitingAck(request))
    ensures start <= pos <= |script| && Logged(log', path, script, pos)
    ensures Settled(path[pos], setup, v, exit) && (exit.CutOff? ==> pos == |script|)
    ensures exit.Onward? ==> v == vars && start < pos
    ensures exit.Onward? ==>
      path[pos] == Here(setup, v, Announcing(request)).(state := ConnectedRecord(Here(setup, v, Holding)))
  {
    v, pos, log' := vars, start, log;
    while true
      invariant start <= pos <= |script| && path[pos] == path[start] && Logged(log', path, script, pos) && v == vars
      decreases |script| - pos
    {
      if pos == |script| { return CutOff(AwaitingAck(request)), v, pos, log'; }
      assert Follows(path, script, pos);
      var answer := script[pos].input;
      pos := pos + 1;
      if Raised(answer) { return Raising(answer), v, pos, log'; }
      if answer.Deadline? {
        exit, v, pos, log' := Report(setup, vars, true, script, pos, log', path);
        return;
      }
      if answer.Silence? { continue; }
      if answer.frame.Frame? && answer.frame.requestId == Some(request) {
        if answer.frame.status in {Some("started"), Some("success")} { return Onward, v, pos, log'; }
        exit, v, pos, log' := Report(setup, vars, true, script, pos, log', path);
        return;
      }
    }
  }

  /** Opening the session. */
  method OpenSession(setup: Setup, vars: Vars, script: seq<Observation>, start: nat, log: seq<Effect>,
                     ghost path: seq<Keeper>)
    returns (exit: Exit, pos: nat)
    requires IsPath(path, script, setup) && start <= |script| && Logged(log, path, script, start)
    requires path[start] == Here(setup, vars, Opening)
    ensures start <= pos <= |script| && Logged(log, path, script, pos)
    ensures Settled(path[pos], setup, vars, exit) && (exit.CutOff? ==> pos == |script|)
    ensures exit.Onward? ==> start < pos && path[pos] == Here(setup, vars, Sending)
  {
    pos := start;
    if pos == |script| { return CutOff(Opening), pos; }
    assert Follows(path, script, pos);
    var answer := script[pos].input;
    pos := pos + 1;
    exit := if Raised(answer) then Raising(answer) else Onward;
  }

  /** Sending the start frame. */
  method SendStart(setup: Setup, vars: Vars, script: seq<Observation>, start: nat, log: seq<Effect>,
                   ghost path: seq<Keeper>)
    returns (exit: Exit, request: RequestId, pos: nat, log': seq<Effect>)
    requires IsPath(path, script, setup) && start <= |script| && Logged(log, path, script, start)
    requires path[start] == Here(setup, vars, Sending)
    ensures start <= pos <= |script| && Logged(log', path, script, pos)
    ensures Settled(path[pos], setup, vars, exit) && (exit.CutOff? ==> pos == |script|)
    ensures exit.Onward? ==> start < pos && path[pos] == Here(setup, vars, AwaitingAck(request))
  {
    pos, log', request := start, log, 0;
    if pos == |script| { return CutOff(Sending), request, pos, log'; }
    assert Follows(path, script, pos);
    var answer := script[pos].input;
    pos := pos + 1;
    if Raised(answer) { return Raising(answer), request, pos, log'; }
    request := answer.request;
    log' := log' + [Start(request)];
    exit := Onward;
  }

  /** Opening the session, sending the start frame, waiting for the ack, recording it. */
  method StartSession(setup: Setup, vars: Vars, script: seq<Observation>, start: nat, log: seq<Effect>,
                      ghost path: seq<Keeper>)
    returns (exit: Exit, v: Vars, pos: nat, log': seq<Effect>)
    requires IsPath(path, script, setup) && start <= |script| && Logged(log, path, script, start)
    requires path[start] == Here(setup, vars, Opening)
    ensures start <= pos <= |script| && Logged(log', path, script, pos)
    ensures Settled(path[pos], setup, v, exit) && (exit.CutOff? ==> pos == |script|)
    ensures exit.Onward? ==> start < pos && path[pos] == Here(setup, v, Holding)
  {
    v, log' := vars, log;
    exit, pos := OpenSession(setup, v, script, start, log, path);
    if !exit.Onward? { return; }
    var request;
    exit, request, pos, log' := SendStart(setup, v, script, pos, log', path);
    if !exit.Onward? { return; }
    exit, v, pos, log' := AwaitAck(setup, v, request, script, pos, log', path);
    if !exit.Onward? { return; }
    exit, v, pos, log' := Announce(setup, v, request, script, pos, log', path);
  }

  /** The "connected" record. */
  method Announce(setup: Setup, vars: Vars, request: RequestId, script: seq<Observation>, start: nat, log: seq<Effect>,
                  ghost path: seq<Keeper>)
    returns (exit: Exit, v: Vars, pos: nat, log': seq<Effect>)
    requires IsPath(path, script, setup) && start <= |script| && Logged(log, path, script, start)
    requires path[start] == Here(setup, vars, Announcing(request)).(state := ConnectedRecord(Here(setup, vars, Holding)))
    ensures start <= pos <= |script| && Logged(log', path, script, pos)
    ensures Settled(path[pos], setup, v, exit) && (exit.Onward? || (exit.CutOff? && pos == |script|))
    ensures exit.Onward? ==> start < pos && path[pos] == Here(setup, v, Holding)
  {
    pos, log' := start, log;
    v := vars.(state := vars.state.(status := Connected, server := setup.server));
    if setup.kind.Happ? {
      v := v.(state := v.state.(subscription := setup.subscription));
    }
    if pos == |script| { return CutOff(Announcing(request)), v, pos, log'; }
    assert Follows(path, script, pos);
    log' := WriteState(setup, v.state, true, script[pos], log', path[pos]);
    pos := pos + 1;
    exit := Onward;
  }

  /** The back-off sleep. */
  method BackOff(setup: Setup, vars: Vars, script: seq<Observation>, start: nat, log: seq<Effect>,
                 ghost path: seq<Keeper>)
    returns (exit: Exit, v: Vars, pos: nat, log': seq<Effect>)
    requires IsPath(path, script, setup) && start <= |script| && Logged(log, path, script, start)
    requires path[start] == Here(setup, vars, Sleeping)
    ensures start <= pos <= |script| && Logged(log', path, script, pos)
    ensures Settled(path[pos], setup, v, exit) && (exit.Onward? || (exit.CutOff? && pos == |script|))
    ensures exit.Onward? ==> start < pos && path[pos] == Here(setup, v, Rechecking)
  {
    v, pos, log' := vars, start, log;
    if pos == |script| { return CutOff(Sleeping), v, pos, log'; }
    assert Follows(path, script, pos);
    log' := log' + [Pause(v.backoff)];
    pos := pos + 1;
    v := v.(backoff := Min(v.backoff * 3, MAX_BACKOFF));
    exit := Onward;
  }

  /** The look at the state file after the sleep. Onward: still the owner. */
  method Recheck(setup: Setup, vars: Vars, script: seq<Observation>, start: nat, log: seq<Effect>,
                 ghost path: seq<Keeper>)
    returns (exit: Exit, v: Vars, pos: nat, log': seq<Effect>)
    requires IsPath(path, script, setup) && start <= |script| && Logged(log, path, script, start)
    requires path[start] == Here(setup, vars, Rechecking)
    ensures start <= pos <= |script| && v == vars && Logged(log', path, script, pos)
    ensures Settled(path[pos], setup, v, exit) && (exit.CutOff? ==> pos == |script|)
    ensures exit.Onward? ==> start < pos && path[pos] == Arm(Here(setup, v, Opening))
  {
    v, pos, log' := vars, start, log;
    if pos == |script| { return CutOff(Rechecking), v, pos, log'; }
    assert Follows(path, script, pos);
    var current := script[pos].file;
    pos := pos + 1;
    if current.None? || current.value.pid != Some(setup.pid) { return Left, v, pos, log'; }
    exit := Onward;
  }

  /** One turn of the outer loop, from the start frame to the end of the session. Onward: arm again. */
  method Attempt(setup: Setup, vars: Vars, script: seq<Observation>, start: nat, log: seq<Effect>,
                 ghost path: seq<Keeper>)
    returns (exit: Exit, v: Vars, pos: nat, log': seq<Effect>)
    requires IsPath(path, script, setup) && start <= |script| && Logged(log, path, script, start)
    requires path[start] == Arm(Here(setup, vars, Opening))
    ensures start <= pos <= |script| && Logged(log', path, script, pos)
    ensures Settled(path[pos], setup, v, exit) && (exit.CutOff? ==> pos == |script|)
    ensures exit.Onward? ==> start < pos && path[pos] == Arm(Here(setup, v, Opening))
  {
    v := vars.(attempts := vars.attempts + 1);
    exit, v, pos, log' := StartSession(setup, v, script, start, log, path);
    if !exit.Onward? { return; }
    ghost var held := pos;
    var r;
    r, pos := HoldSession(setup, v.iface, script, pos, path);
    HoldingIsSilent(path, script, setup, held, pos);
    if r.Unfinished? { return CutOff(r.phase), v, pos, log'; }
    if r.Threw? { return Raising(r.input), v, pos, log'; }
    if !r.died || v.attempts >= MAX_ATTEMPTS { return Left, v, pos, log'; }
    exit, v, pos, log' := BackOff(setup, v, script, pos, log', path);
    if !exit.Onward? { return; }
    exit, v, pos, log' := Recheck(setup, v, script, pos, log', path);
  }

  predicate InHold(phase: Phase) {
    phase in {Holding, CheckingOwner, CheckingIface}
  }

  lemma HoldStepSilent(k: Keeper, o: Observation)
    requires InHold(k.phase) && Accepts(k.phase, o.input)
    ensures EffectOf(k, o) == [] && Advance(k, o.file, o.input).setup == k.setup
    ensures !EndsHold(o, k.setup) ==> InHold(Advance(k, o.file, o.input).phase)
  {}

  /** A held session reads frames and the state file, it writes and sends nothing. */
  lemma {:induction false} HoldingIsSilent(path: seq<Keeper>, script: seq<Observation>, setup: Setup, a: nat, b: nat)
    requires IsPath(path, script, setup) && a <= b <= |script|
    requires InHold(path[a].phase) && path[a].setup == setup
    requires a < b ==> Quiet(script, a, b - 1, setup)
    ensures LogOf(path, script, b) == LogOf(path, script, a) && path[b].setup == setup
    ensures a < b && Quiet(script, a, b, setup) ==> InHold(path[b].phase)
  {
    if a < b {
      HoldingIsSilent(path, script, setup, a, b - 1);
      assert InHold(path[b - 1].phase);
      assert Follows(path, script, b - 1);
      HoldStepSilent(path[b - 1], script[b - 1]);
    }
  }

  /** The try block: everything between the claim and the finally clause. */
  method TryBlock(setup: Setup, vars: Vars, script: seq<Observation>, start: nat, log: seq<Effect>,
                  ghost path: seq<Keeper>)
    returns (exit: Exit, v: Vars, pos: nat, log': seq<Effect>)
    requires IsPath(path, script, setup) && start <= |script| && Logged(log, path, script, start)
    requires path[start] == Here(setup, vars, Preparing)
    ensures start <= pos <= |script| && Logged(log', path, script, pos)
    ensures Settled(path[pos], setup, v, exit) && !exit.Onward? && (exit.CutOff? ==> pos == |script|)
  {
    v, pos, log' := vars, start, log;
    if pos == |script| { return CutOff(Preparing), v, pos, log'; }
    assert Follows(path, script, pos);
    var answer := script[pos].input;
    pos := pos + 1;
    if Raised(answer) { return Raising(answer), v, pos, log'; }
    if answer.NoConfig? || answer.Rejected? {
      exit, v, pos, log' := Report(setup, v, setup.kind.Happ? || answer.Rejected?, script, pos, log', path);
      return;
    }
    v := v.(iface := answer.iface);
    while true
      invariant start <= pos <= |script| && Logged(log', path, script, pos)
      invariant path[pos] == Arm(Here(setup, v, Opening))
      decreases |script| - pos
    {
      exit, v, pos, log' := Attempt(setup, v, script, pos, log', path);
      if !exit.Onward? { return; }
    }
  }

  /** The finally clause: the "exited" record, after which the process is gone. */
  method Finally(setup: Setup, vars: Vars, script: seq<Observation>, start: nat, log: seq<Effect>,
                 ghost path: seq<Keeper>)
    returns (k: Keeper, log': seq<Effect>)
    requires IsPath(path, script, setup) && start <= |script| && Logged(log, path, script, start)
    requires path[start] == Here(setup, vars, Closing)
    ensures k == path[|script|] && log' == LogOf(path, script, |script|)
  {
    if start == |script| { return Here(setup, vars, Closing), log; }
    var v := vars.(state := vars.state.(status := Exited));
    assert Follows(path, script, start);
    log' := WriteState(setup, v.state, true, script[start], log, path[start]);
    k := Here(setup, v, Done);
    assert start + 1 < |script| ==> Follows(path, script, start + 1);
  }

  /**
    run_keeper. After any script of answers its variables and its effects, in
    order, are those of the step machine fed with the same answers.
   */
  method RunKeeper(setup: Setup, script: seq<Observation>, ghost path: seq<Keeper>)
    returns (k: Keeper, log: seq<Effect>)
    requires IsPath(path, script, setup)
    ensures k == path[|script|] && log == LogOf(path, script, |script|)
  {
    var v := Vars(Started(setup).state, None, 0, FIRST_BACKOFF);
    log := [];
    if |script| == 0 { return Here(setup, v, Claiming), log; }
    assert Follows(path, script, 0);
    log := WriteState(setup, v.state, false, script[0], log, path[0]);
    var exit, pos;
    exit, v, pos, log := TryBlock(setup, v, script, 1, log, path);
    if exit.Raising? {
      if exit.input.Crashed? || v.state.status.Connecting? {
        exit, v, pos, log := Report(setup, v, true, script, pos, log, path);
      } else {
        exit := Left;
      }
    }
    if exit.CutOff? { return Here(setup, v, exit.phase), log; }
    k, log := Finally(setup, v, script, pos, log, path);
  }
}
