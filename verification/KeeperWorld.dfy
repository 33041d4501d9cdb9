/**
  Any number of keepers, connects, switches and disconnects sharing one state
  file. happd is not part of the state: every answer it could give is allowed.
 */
module KeeperWorld {
  import opened Common
  import opened Keeper

  datatype World = World(file: Option<Record>, keepers: map<Pid, Keeper>)

  datatype Step =
    | Unlink                       // first action of a connect, a switch and a disconnect
    | Spawn(setup: Setup)
    | Act(pid: Pid, input: Input)  // one step of one keeper
    | Kill(pid: Pid)               // the process ends without running its finally block

  predicate Enabled(w: World, s: Step) {
    match s
    case Unlink => true
    case Spawn(setup) => setup.pid !in w.keepers
    case Act(p, input) => p in w.keepers && Accepts(w.keepers[p].phase, input)
    case Kill(p) => p in w.keepers
  }

  function Next(w: World, s: Step): World
    requires Enabled(w, s)
  {
    match s
    case Unlink => w.(file := None)
    case Spawn(setup) => w.(keepers := w.keepers[setup.pid := Started(setup)])
    case Act(p, input) =>
      var k := w.keepers[p];
      World(FileAfter(k, w.file, input), w.keepers[p := Advance(k, w.file, input)])
    case Kill(p) => w.(keepers := w.keepers[p := w.keepers[p].(phase := Done)])
  }

  /** Every keeper is filed under its own pid, and that is the pid in the record it keeps. */
  ghost predicate Named(w: World) {
    forall p <- w.keepers :: w.keepers[p].setup.pid == p && w.keepers[p].state.pid == Some(p)
  }

  /** ws[i + 1] is what step ss[i] makes of ws[i]; nobody is running at the start, the file is arbitrary. */
  ghost predicate IsRun(ws: seq<World>, ss: seq<Step>) {
    && |ws| == |ss| + 1
    && ws[0].keepers == map[]
    && forall i | 0 <= i < |ss| :: Enabled(ws[i], ss[i]) && ws[i + 1] == Next(ws[i], ss[i])
  }

  /** The same from any world on. */
  ghost predicate Continues(w: World, ss: seq<Step>)
    decreases |ss|
  {
    |ss| > 0 ==> Enabled(w, ss[0]) && Continues(Next(w, ss[0]), ss[1..])
  }

  /** The world after all the steps. */
  ghost function Final(w: World, ss: seq<Step>): World
    requires Continues(w, ss)
    decreases |ss|
  {
    if |ss| == 0 then w else Final(Next(w, ss[0]), ss[1..])
  }

  predicate IsStart(s: Step, p: Pid) {
    s.Act? && s.pid == p && s.input.Sent?
  }

  // ── Finality ───────────────────────────────────────────────────────────────

  predicate InSession(phase: Phase) {
    phase in {Holding, CheckingOwner, CheckingIface, Sleeping, Rechecking}
  }

  /** Whether another start frame of p is still possible. */
  predicate MaySend(w: World, p: Pid)
    requires p in w.keepers
  {
    var k := w.keepers[p];
    match k.phase
    case Claiming | Preparing | Opening | Sending => true
    case AwaitingAck(_) | Announcing(_) => k.attempts < MAX_ATTEMPTS
    case Holding | CheckingOwner | CheckingIface => Owns(w.file, p) && k.attempts < MAX_ATTEMPTS
    case Sleeping | Rechecking => Owns(w.file, p)
    case Reporting(_) | Closing | Done => false
  }

  lemma NamedKept(w: World, s: Step)
    requires Named(w) && Enabled(w, s)
    ensures Named(Next(w, s))
  {}

  lemma NeverAgainKept(w: World, s: Step, p: Pid)
    requires Named(w) && Enabled(w, s) && p in w.keepers && !MaySend(w, p)
    ensures !MaySend(Next(w, s), p) && !IsStart(s, p)
  {}

  lemma {:induction false} NoStartWithoutMaySend(w: World, ss: seq<Step>, p: Pid)
    requires Named(w) && Continues(w, ss) && p in w.keepers && !MaySend(w, p)
    ensures forall s <- ss :: !IsStart(s, p)
    decreases |ss|
  {
    if |ss| > 0 {
      NeverAgainKept(w, ss[0], p);
      NamedKept(w, ss[0]);
      NoStartWithoutMaySend(Next(w, ss[0]), ss[1..], p);
      assert ss == [ss[0]] + ss[1..];
    }
  }

  /** Distance to the next start frame along the shortest way there. */
  function Rank(w: World, p: Pid): nat
    requires p in w.keepers
  {
    match w.keepers[p].phase
    case Claiming => 12
    case AwaitingAck(_) => 11
    case Announcing(_) => if Replaceable(w.file, p) then 9 else 10
    case CheckingOwner => 8
    case CheckingIface => 7
    case Holding => 6
    case Sleeping => 5
    case Rechecking => 4
    case Preparing => 3
    case Opening => 2
    case _ => 1
  }

  /** One step of the shortest way. */
  function Towards(w: World, p: Pid): Step
    requires p in w.keepers
  {
    var k := w.keepers[p];
    match k.phase
    case Claiming | CheckingOwner | Rechecking => Act(p, Access(true))
    case Announcing(_) => if Replaceable(w.file, p) then Act(p, Access(true)) else Unlink
    case Preparing => Act(p, Prepared(None))
    case Opening => Act(p, Opened)
    case AwaitingAck(r) => Act(p, Received(Frame(None, None, "", Some(r), Some("started"))))
    case CheckingIface => Act(p, IfaceSeen(true))
    case Holding => Act(p, Received(Frame(None, Some("finished"), "1", None, None)))
    case Sleeping => Act(p, Slept)
    case _ => Act(p, Sent(0))
  }

  lemma TowardsHelps(w: World, p: Pid)
    requires Named(w) && p in w.keepers && MaySend(w, p) && !w.keepers[p].phase.Sending?
    ensures Enabled(w, Towards(w, p))
    ensures var v := Next(w, Towards(w, p)); MaySend(v, p) && Rank(v, p) < Rank(w, p)
  {}

  lemma {:induction false} WayToStart(w: World, p: Pid) returns (ss: seq<Step>)
    requires Named(w) && p in w.keepers && MaySend(w, p)
    ensures Continues(w, ss) && |ss| > 0 && IsStart(ss[|ss| - 1], p)
    decreases Rank(w, p)
  {
    if w.keepers[p].phase.Sending? {
      ss := [Act(p, Sent(0))];
      assert Continues(Next(w, ss[0]), ss[1..]);
    } else {
      TowardsHelps(w, p);
      NamedKept(w, Towards(w, p));
      var rest := WayToStart(Next(w, Towards(w, p)), p);
      ss := [Towards(w, p)] + rest;
      assert ss[1..] == rest;
    }
  }

  ghost predicate LeadsToStart(w: World, ss: seq<Step>, p: Pid) {
    Continues(w, ss) && exists s <- ss :: IsStart(s, p)
  }

  /** Some continuation contains a start frame of p exactly when MaySend holds. */
  lemma StartFrameStillPossibleIff(w: World, p: Pid)
    requires Named(w) && p in w.keepers
    ensures MaySend(w, p) <==> exists ss :: LeadsToStart(w, ss, p)
  {
    if MaySend(w, p) {
      var ss := WayToStart(w, p);
      assert ss[|ss| - 1] in ss;
      assert LeadsToStart(w, ss, p);
    } else {
      forall ss | Continues(w, ss) ensures !LeadsToStart(w, ss, p) {
        NoStartWithoutMaySend(w, ss, p);
      }
    }
  }

  /** A switch or disconnect during hold or back-off is final. */
  lemma DisownedSessionNeverRestarts(w: World, ss: seq<Step>, p: Pid)
    requires Named(w) && Continues(w, ss) && p in w.keepers
    requires InSession(w.keepers[p].phase) && !Owns(w.file, p)
    ensures forall s <- ss :: !IsStart(s, p)
  {
    NoStartWithoutMaySend(w, ss, p);
  }

  /** A disconnect before the ack is not: the keeper writes the file back and lives on to re-arm. */
  lemma DisconnectDuringAckIsNotFinal(w: World, p: Pid)
    requires Named(w) && p in w.keepers && w.keepers[p].phase.AwaitingAck?
    requires w.keepers[p].attempts < 3
    ensures exists ss :: LeadsToStart(Next(w, Unlink), ss, p)
  {
    NamedKept(w, Unlink);
    StartFrameStillPossibleIff(Next(w, Unlink), p);
  }

  /** A keeper that was killed, or is done, takes no further step. */
  lemma {:induction false} GoneNeverActs(w: World, ss: seq<Step>, p: Pid)
    requires p in w.keepers && w.keepers[p].phase.Done? && Continues(w, ss)
    ensures forall s <- ss :: !(s.Act? && s.pid == p)
    decreases |ss|
  {
    if |ss| > 0 {
      GoneNeverActs(Next(w, ss[0]), ss[1..], p);
      assert ss == [ss[0]] + ss[1..];
    }
  }

  lemma KilledNeverActs(w: World, ss: seq<Step>, p: Pid)
    requires p in w.keepers && Continues(Next(w, Kill(p)), ss)
    ensures Next(w, Kill(p)).file == w.file && forall s <- ss :: !(s.Act? && s.pid == p)
  {
    GoneNeverActs(Next(w, Kill(p)), ss, p);
  }

  // ── Ownership ──────────────────────────────────────────────────────────────

  /** A keeper's step replaces a record naming another pid only when it writes without looking. */
  lemma ForeignRecordReplacedIff(w: World, p: Pid, input: Input, owner: Pid)
    requires Named(w) && Enabled(w, Act(p, input)) && Owns(w.file, owner) && owner != p
    ensures !Owns(Next(w, Act(p, input)).file, owner)
      <==> Unguarded(w.keepers[p].phase) && input == Access(true)
    ensures !Unguarded(w.keepers[p].phase) ==> Next(w, Act(p, input)).file == w.file
  {}

  /** Which writes land: the claim and the key keeper's own report always, others unless the file names another pid. */
  lemma WriteLandsIff(w: World, p: Pid)
    requires Named(w) && p in w.keepers
    requires var phase := w.keepers[p].phase;
      phase.Claiming? || phase.Announcing? || phase.Reporting? || phase.Closing?
    ensures Enabled(w, Act(p, Access(true)))
    ensures
      var k := w.keepers[p];
      Next(w, Act(p, Access(true))).file ==
        if k.phase.Claiming? || k.phase == Reporting(false)
           || w.file.None? || w.file.value.pid.None? || w.file.value.pid == Some(p)
        then Some(if k.phase.Closing? then k.state.(status := Exited) else k.state)
        else w.file
    ensures Next(w, Act(p, Access(false))).file == w.file
  {}

  /** The steps after which a record owned by p need not be there any more. */
  predicate Touches(w: World, s: Step, p: Pid) {
    || s.Unlink?
    || (s.Act? && s.pid in w.keepers && Writes(w.keepers[s.pid]).Some?
        && (s.pid == p || Unguarded(w.keepers[s.pid].phase)))
  }

  lemma {:induction false} RunNamed(ws: seq<World>, ss: seq<Step>, n: nat)
    requires IsRun(ws, ss) && n < |ws|
    ensures Named(ws[n])
  {
    if n > 0 {
      RunNamed(ws, ss, n - 1);
      NamedKept(ws[n - 1], ss[n - 1]);
    }
  }

  /** A claimed record stays until its keeper writes again, an unlink, or a write that does not look. */
  lemma {:induction false} RecordStays(ws: seq<World>, ss: seq<Step>, a: nat, b: nat, p: Pid)
    requires IsRun(ws, ss) && a <= b < |ws| && Owns(ws[a].file, p)
    requires forall i | a <= i < b :: !Touches(ws[i], ss[i], p)
    ensures ws[b].file == ws[a].file
  {
    if a < b {
      RecordStays(ws, ss, a, b - 1, p);
      RunNamed(ws, ss, b - 1);
    }
  }

  ghost predicate HappOnly(ss: seq<Step>) {
    forall s <- ss :: s.Spawn? ==> s.setup.kind.Happ?
  }

  ghost predicate OnlyClaimsUnguarded(w: World) {
    forall p <- w.keepers :: w.keepers[p].setup.kind.Happ? && w.keepers[p].phase != Reporting(false)
  }

  /** Among Happ keepers the claim is the only write that does not look. */
  lemma {:induction false} HappWritesGuarded(ws: seq<World>, ss: seq<Step>, n: nat, p: Pid)
    requires IsRun(ws, ss) && HappOnly(ss) && n < |ws| && p in ws[n].keepers
    ensures Unguarded(ws[n].keepers[p].phase) <==> ws[n].keepers[p].phase.Claiming?
  {
    HappKept(ws, ss, n);
  }

  lemma {:induction false} HappKept(ws: seq<World>, ss: seq<Step>, n: nat)
    requires IsRun(ws, ss) && HappOnly(ss) && n < |ws|
    ensures OnlyClaimsUnguarded(ws[n])
  {
    if n > 0 {
      HappKept(ws, ss, n - 1);
      assert ss[n - 1] in ss;
    }
  }

  // ── "connected" means acknowledged ─────────────────────────────────────────

  ghost predicate Requested(ss: seq<Step>, n: nat, p: Pid, r: RequestId)
    requires n <= |ss|
  {
    exists i :: 0 <= i < n && ss[i] == Act(p, Sent(r))
  }

  /** Step j hands p an ack for a start frame that p sent before. */
  ghost predicate AckAt(ss: seq<Step>, j: nat, p: Pid, r: RequestId)
    requires j < |ss|
  {
    && ss[j].Act? && ss[j].pid == p
    && ss[j].input.Received? && ss[j].input.frame.Frame? && ss[j].input.frame.requestId == Some(r)
    && (ss[j].input.frame.status == Some("started") || ss[j].input.frame.status == Some("success"))
    && Requested(ss, j, p, r)
  }

  ghost predicate Acknowledged(ss: seq<Step>, n: nat, p: Pid)
    requires n <= |ss|
  {
    exists j: nat, r :: j < n && AckAt(ss, j, p, r)
  }

  ghost predicate KeeperJustified(ss: seq<Step>, n: nat, p: Pid, k: Keeper)
    requires n <= |ss|
  {
    && (k.phase.AwaitingAck? ==> Requested(ss, n, p, k.phase.request))
    && (k.state.status.Connected? ==> Acknowledged(ss, n, p))
  }

  ghost predicate FileJustified(ws: seq<World>, ss: seq<Step>, n: nat)
    requires n <= |ss| && n < |ws|
  {
    var file := ws[n].file;
    || (forall m | 0 <= m <= n :: ws[m].file == file)
    || file.None?
    || (file.value.pid.Some? && (file.value.status.Connected? ==> Acknowledged(ss, n, file.value.pid.value)))
  }

  ghost predicate Justified(ws: seq<World>, ss: seq<Step>, n: nat)
    requires n <= |ss| && n < |ws|
  {
    && FileJustified(ws, ss, n)
    && forall p <- ws[n].keepers :: KeeperJustified(ss, n, p, ws[n].keepers[p])
  }

  lemma KeeperJustifiedGrows(ss: seq<Step>, n: nat, p: Pid, k: Keeper)
    requires n < |ss| && KeeperJustified(ss, n, p, k)
    ensures KeeperJustified(ss, n + 1, p, k)
  {
    if k.state.status.Connected? {
      var j: nat, r :| j < n && AckAt(ss, j, p, r);
      assert j < n + 1 && AckAt(ss, j, p, r);
    }
  }

  lemma KeeperJustifiedStep(ws: seq<World>, ss: seq<Step>, n: nat, p: Pid)
    requires IsRun(ws, ss) && n < |ss| && Justified(ws, ss, n) && p in ws[n + 1].keepers
    ensures KeeperJustified(ss, n + 1, p, ws[n + 1].keepers[p])
  {
    var s := ss[n];
    if p in ws[n].keepers {
      var k := ws[n].keepers[p];
      KeeperJustifiedGrows(ss, n, p, k);
      if s.Act? && s.pid == p {
        if s.input.Sent? && k.phase.Sending? {
          assert ss[n] == Act(p, Sent(s.input.request));
        }
        if k.phase.AwaitingAck? && s.input.Received? && IsAck(s.input.frame, k.phase.request) {
          assert AckAt(ss, n, p, k.phase.request);
        }
      }
    }
  }

  lemma FileJustifiedStep(ws: seq<World>, ss: seq<Step>, n: nat)
    requires IsRun(ws, ss) && n < |ss| && Justified(ws, ss, n) && Named(ws[n])
    ensures FileJustified(ws, ss, n + 1)
  {
    var file := ws[n + 1].file;
    if file == ws[n].file {
      if file.Some? && file.value.pid.Some? && Acknowledged(ss, n, file.value.pid.value) {
        var j: nat, r :| j < n && AckAt(ss, j, file.value.pid.value, r);
        assert j < n + 1 && AckAt(ss, j, file.value.pid.value, r);
      }
    } else if file.Some? {
      var p := ss[n].pid;
      KeeperJustifiedGrows(ss, n, p, ws[n].keepers[p]);
    }
  }

  lemma {:induction false} RunJustified(ws: seq<World>, ss: seq<Step>, n: nat)
    requires IsRun(ws, ss) && n < |ws|
    ensures Justified(ws, ss, n)
  {
    if n > 0 {
      RunJustified(ws, ss, n - 1);
      RunNamed(ws, ss, n - 1);
      FileJustifiedStep(ws, ss, n - 1);
      forall p <- ws[n].keepers ensures KeeperJustified(ss, n, p, ws[n].keepers[p]) {
        KeeperJustifiedStep(ws, ss, n - 1, p);
      }
    }
  }

  /**
    A "connected" record read after a connect's unlink was written by a keeper
    that got an ack carrying the request id of a start frame it sent.
   */
  lemma ConnectedMeansAcknowledged(ws: seq<World>, ss: seq<Step>, u: nat, n: nat)
    requires IsRun(ws, ss) && u < n < |ws| && ss[u].Unlink?
    requires ws[n].file.Some? && ws[n].file.value.status.Connected?
    ensures ws[n].file.value.pid.Some? && Acknowledged(ss, n, ws[n].file.value.pid.value)
  {
    RunJustified(ws, ss, n);
    assert ws[u + 1].file.None?;
  }

  // ── What a "connected" record names ────────────────────────────────────────

  /** Step i spawned a keeper with this setup. */
  ghost predicate SpawnedAt(ss: seq<Step>, i: nat, setup: Setup) {
    i < |ss| && ss[i] == Spawn(setup)
  }

  /** The record is of a keeper that one of the first n steps spawned; if "connected" it names what that was for. */
  ghost predicate NamesSpawned(ss: seq<Step>, n: nat, record: Record, i: nat, setup: Setup) {
    && i < n && SpawnedAt(ss, i, setup) && record.pid == Some(setup.pid)
    && (record.status.Connected? ==> record.server == setup.server)
    && (record.status.Connected? && setup.kind.Happ? ==> record.subscription == setup.subscription)
  }

  ghost predicate KeeperNames(ss: seq<Step>, n: nat, k: Keeper) {
    exists i: nat :: NamesSpawned(ss, n, k.state, i, k.setup)
  }

  ghost predicate FileNames(ws: seq<World>, ss: seq<Step>, n: nat)
    requires n < |ws|
  {
    var file := ws[n].file;
    || (forall m | 0 <= m <= n :: ws[m].file == file)
    || (file.Some? ==> exists i: nat, setup :: NamesSpawned(ss, n, file.value, i, setup))
  }

  ghost predicate AllName(ws: seq<World>, ss: seq<Step>, n: nat)
    requires n < |ws|
  {
    FileNames(ws, ss, n) && forall p <- ws[n].keepers :: KeeperNames(ss, n, ws[n].keepers[p])
  }

  lemma KeeperNamesStep(ss: seq<Step>, n: nat, k: Keeper, file: Option<Record>, input: Input)
    requires KeeperNames(ss, n, k) && Accepts(k.phase, input)
    ensures KeeperNames(ss, n + 1, Advance(k, file, input))
    ensures Writes(k).Some? ==> KeeperNames(ss, n + 1, k.(state := Writes(k).value))
  {
    var i: nat :| NamesSpawned(ss, n, k.state, i, k.setup);
    assert NamesSpawned(ss, n + 1, Advance(k, file, input).state, i, k.setup);
    assert Writes(k).Some? ==> NamesSpawned(ss, n + 1, Writes(k).value, i, k.setup);
  }

  lemma KeepersNameStep(ws: seq<World>, ss: seq<Step>, n: nat, p: Pid)
    requires IsRun(ws, ss) && n < |ss| && AllName(ws, ss, n) && p in ws[n + 1].keepers
    ensures KeeperNames(ss, n + 1, ws[n + 1].keepers[p])
  {
    var s := ss[n];
    if p in ws[n].keepers {
      var k := ws[n].keepers[p];
      if s.Act? && s.pid == p {
        KeeperNamesStep(ss, n, k, ws[n].file, s.input);
      } else {
        var i: nat :| NamesSpawned(ss, n, k.state, i, k.setup);
        assert NamesSpawned(ss, n + 1, k.state, i, k.setup);
      }
    } else {
      assert NamesSpawned(ss, n + 1, Started(s.setup).state, n, s.setup);
    }
  }

  lemma FileNamesStep(ws: seq<World>, ss: seq<Step>, n: nat)
    requires IsRun(ws, ss) && n < |ss| && AllName(ws, ss, n)
    ensures FileNames(ws, ss, n + 1)
  {
    var file := ws[n + 1].file;
    if file == ws[n].file {
      if file.Some? && exists i: nat, setup :: NamesSpawned(ss, n, file.value, i, setup) {
        var i: nat, setup :| NamesSpawned(ss, n, file.value, i, setup);
        assert NamesSpawned(ss, n + 1, file.value, i, setup);
      }
    } else if file.Some? {
      var k := ws[n].keepers[ss[n].pid];
      KeeperNamesStep(ss, n, k, ws[n].file, ss[n].input);
      var i: nat :| NamesSpawned(ss, n + 1, file.value, i, k.setup);
    }
  }

  lemma {:induction false} RunNames(ws: seq<World>, ss: seq<Step>, n: nat)
    requires IsRun(ws, ss) && n < |ws|
    ensures AllName(ws, ss, n)
  {
    if n > 0 {
      RunNames(ws, ss, n - 1);
      FileNamesStep(ws, ss, n - 1);
      forall p <- ws[n].keepers ensures KeeperNames(ss, n, ws[n].keepers[p]) {
        KeepersNameStep(ws, ss, n - 1, p);
      }
    }
  }

  /**
    A "connected" record read after a connect's unlink names the server, and for
    Happ the subscription, of an acknowledged keeper: the one spawned under its pid.
   */
  lemma ConnectedNamesSpawned(ws: seq<World>, ss: seq<Step>, u: nat, n: nat) returns (i: nat)
    requires IsRun(ws, ss) && u < n < |ws| && ss[u].Unlink?
    requires ws[n].file.Some? && ws[n].file.value.status.Connected?
    ensures i < n && ss[i].Spawn? && ws[n].file.value.pid == Some(ss[i].setup.pid)
    ensures Acknowledged(ss, n, ss[i].setup.pid)
    ensures ws[n].file.value.server == ss[i].setup.server
    ensures ss[i].setup.kind.Happ? ==> ws[n].file.value.subscription == ss[i].setup.subscription
  {
    ConnectedMeansAcknowledged(ws, ss, u, n);
    RunNames(ws, ss, n);
    assert ws[u + 1].file.None?;
    var j: nat, setup :| NamesSpawned(ss, n, ws[n].file.value, j, setup);
    i := j;
  }

  // ── What the menu can misread ──────────────────────────────────────────────

  /**
    The poll of a connect ignores the pid: an old keeper that was still closing
    puts its "exited" into the file between the unlink and the new claim.
   */
  lemma StaleExitReadAsVerdict(w: World, stale: Pid, setup: Setup)
    requires Named(w) && stale in w.keepers && w.keepers[stale].phase.Closing? && setup.pid !in w.keepers
    ensures Continues(w, [Unlink, Spawn(setup), Act(stale, Access(true))])
    ensures
      var v := Next(Next(Next(w, Unlink), Spawn(setup)), Act(stale, Access(true)));
      && v.file.Some? && v.file.value.status.Exited? && v.file.value.pid == Some(stale)
      && v.keepers[setup.pid].phase.Claiming?
  {
    var ss := [Unlink, Spawn(setup), Act(stale, Access(true))];
    var w1 := Next(w, Unlink);
    var w2 := Next(w1, Spawn(setup));
    assert ss[1..][1..] == [Act(stale, Access(true))] && ss[1..][1..][1..] == [];
    assert Continues(w2, ss[1..][1..]);
    assert Continues(w1, ss[1..]);
  }

  // ── The guarded write in two steps ─────────────────────────────────────────

  /** The world in which a guarded write is a look at the file and a write later on. */
  datatype SplitWorld = SplitWorld(world: World, looked: map<Pid, Option<Record>>)

  datatype SplitStep = Whole(step: Step) | Look(pid: Pid) | Put(pid: Pid, written: bool)

  predicate WritesGuarded(w: World, p: Pid) {
    p in w.keepers && Writes(w.keepers[p]).Some? && !Unguarded(w.keepers[p].phase)
  }

  predicate SplitEnabled(sw: SplitWorld, s: SplitStep) {
    match s
    case Whole(step) => Enabled(sw.world, step) && (step.Act? ==> !WritesGuarded(sw.world, step.pid))
    case Look(p) => WritesGuarded(sw.world, p) && p !in sw.looked
    case Put(p, _) => WritesGuarded(sw.world, p) && p in sw.looked
  }

  function SplitNext(sw: SplitWorld, s: SplitStep): SplitWorld
    requires SplitEnabled(sw, s)
  {
    var w := sw.world;
    match s
    case Whole(step) => sw.(world := Next(w, step))
    case Look(p) => sw.(looked := sw.looked[p := w.file])
    case Put(p, written) =>
      var k := w.keepers[p];
      var file := if written && Replaceable(sw.looked[p], p) then Writes(k) else w.file;
      SplitWorld(World(file, w.keepers[p := Advance(k, w.file, Access(written))]), sw.looked - {p})
  }

  /** The late write does what the write in one step would do exactly when the look still holds, or nothing changes. */
  lemma PutIsAtomicIff(sw: SplitWorld, p: Pid)
    requires Named(sw.world) && SplitEnabled(sw, Put(p, true))
    ensures SplitNext(sw, Put(p, false)).world == Next(sw.world, Act(p, Access(false)))
    ensures SplitNext(sw, Put(p, true)).world == Next(sw.world, Act(p, Access(true)))
      <==> Replaceable(sw.looked[p], p) == Replaceable(sw.world.file, p) || sw.world.file == Writes(sw.world.keepers[p])
  {}

  /** The steps one after the other. */
  ghost predicate SplitContinues(sw: SplitWorld, ss: seq<SplitStep>)
    decreases |ss|
  {
    |ss| > 0 ==> SplitEnabled(sw, ss[0]) && SplitContinues(SplitNext(sw, ss[0]), ss[1..])
  }

  ghost function SplitFinal(sw: SplitWorld, ss: seq<SplitStep>): SplitWorld
    requires SplitContinues(sw, ss)
    decreases |ss|
  {
    if |ss| == 0 then sw else SplitFinal(SplitNext(sw, ss[0]), ss[1..])
  }

  lemma SplitPrepend(sw: SplitWorld, s: SplitStep, rest: seq<SplitStep>)
    requires SplitEnabled(sw, s) && SplitContinues(SplitNext(sw, s), rest)
    ensures SplitContinues(sw, [s] + rest) && SplitFinal(sw, [s] + rest) == SplitFinal(SplitNext(sw, s), rest)
  {
    assert ([s] + rest)[1..] == rest;
  }

  /** A new keeper starts and claims the file, while p sits between its look and its write. */
  function ClaimInWindow(p: Pid, setup: Setup): seq<SplitStep> {
    [Look(p)] + ([Whole(Spawn(setup))] + ([Whole(Act(setup.pid, Access(true)))] + ([Put(p, true)] + [])))
  }

  /** The claim is lost, where p's write taken as one step after it would have left it alone. */
  lemma SplitWriteLosesClaim(w: World, p: Pid, setup: Setup)
    requires Named(w) && p in w.keepers && w.keepers[p].phase.Closing? && setup.pid !in w.keepers
    requires Replaceable(w.file, p)
    ensures var sw := SplitWorld(w, map[]);
      SplitContinues(sw, ClaimInWindow(p, setup)) && Owns(SplitFinal(sw, ClaimInWindow(p, setup)).world.file, p)
    ensures
      var v := Next(Next(w, Spawn(setup)), Act(setup.pid, Access(true)));
      Owns(v.file, setup.pid) && Next(v, Act(p, Access(true))).file == v.file
  {
    var sw := SplitWorld(w, map[]);
    var s1, s2, s3, s4 := Look(p), Whole(Spawn(setup)), Whole(Act(setup.pid, Access(true))), Put(p, true);
    var sw1 := SplitNext(sw, s1);
    var sw2 := SplitNext(sw1, s2);
    var sw3 := SplitNext(sw2, s3);
    SplitPrepend(sw3, s4, []);
    SplitPrepend(sw2, s3, [s4] + []);
    SplitPrepend(sw1, s2, [s3] + ([s4] + []));
    SplitPrepend(sw, s1, [s2] + ([s3] + ([s4] + [])));
  }
}
