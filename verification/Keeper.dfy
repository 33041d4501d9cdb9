/**
  One keeper: the detached process that asks happd to start xray and holds the
  session open (run_keeper and _hold_session), as a machine whose every step is
  one interaction with the outside: a socket call, one access to the shared
  state file, or the back-off sleep.
 */
module Keeper {
  import opened Common

  type Pid = nat
  type RequestId = nat

  const MAX_ATTEMPTS := 3
  const FIRST_BACKOFF := 3
  const MAX_BACKOFF := 30
  const SIGTERM_EXIT := "15"

  datatype Status = Connecting | Connected | Error | Exited

  /** The content of the state file. A file without a pid predates the ownership scheme. */
  datatype Record = Record(pid: Option<Pid>, status: Status, server: Option<string>, subscription: Option<string>)

  /** The two programs that run this protocol: the Happ keeper and the key keeper. */
  datatype Kind = Happ | Keys

  /** serverId is what the key keeper is started with, server the display name found in the config. */
  datatype Setup = Setup(pid: Pid, kind: Kind, processId: string, serverId: Option<string>,
                         server: Option<string>, subscription: Option<string>)

  /** A decoded message from happd; Malformed is a payload that is not JSON. */
  datatype Frame =
    | Malformed
    | Frame(processId: Option<string>, event: Option<string>, data: string,
            requestId: Option<RequestId>, status: Option<string>)

  datatype Phase =
    | Claiming                       // about to write the first, unconditional record
    | Preparing                      // resolving and checking the xray config
    | Opening                        // top of an attempt: connecting to happd
    | Sending                        // about to send the start frame
    | AwaitingAck(request: RequestId)
    | Announcing(request: RequestId) // ack received, about to write "connected"
    | Holding                        // waiting for the next frame of the session
    | CheckingOwner                  // idle tick: reading the state file
    | CheckingIface                  // idle tick: still the owner, looking for the tunnel
    | Sleeping                       // back-off before a re-arm
    | Rechecking                     // slept, about to read the state file
    | Reporting(guarded: bool)       // about to write an error record
    | Closing                        // about to write "exited"
    | Done

  datatype Keeper = Keeper(setup: Setup, phase: Phase, state: Record, iface: Option<string>,
                           attempts: nat, backoff: nat)

  /** What the outside answers to one step of a keeper. */
  datatype Input =
    | Access(written: bool)          // a file access; written = a write reached the disk
    | Prepared(iface: Option<string>) | NoConfig | Rejected
    | Opened
    | Sent(request: RequestId)
    | Deadline                       // the 20 s ack budget is used up
    | Silence                        // the socket timed out
    | Received(frame: Frame)
    | IfaceSeen(up: bool)
    | Slept
    | Broken                         // OSError, including a closed connection
    | Crashed                        // any other exception

  predicate Owns(file: Option<Record>, pid: Pid) {
    file.Some? && file.value.pid == Some(pid)
  }

  /** A guarded write gives way only to a record that names another pid. */
  predicate Replaceable(file: Option<Record>, pid: Pid) {
    file.None? || file.value.pid.None? || file.value.pid == Some(pid)
  }

  function Started(setup: Setup): Keeper {
    var server := if setup.kind.Keys? then setup.serverId else None;
    Keeper(setup, Claiming, Record(Some(setup.pid), Connecting, server, None), None, 0, FIRST_BACKOFF)
  }

  predicate Accepts(phase: Phase, input: Input) {
    match phase
    case Claiming | Announcing(_) | CheckingOwner | Rechecking | Reporting(_) | Closing => input.Access?
    case Preparing => input.Prepared? || input.NoConfig? || input.Rejected? || Raised(input)
    case Opening => input.Opened? || Raised(input)
    case Sending => input.Sent? || Raised(input)
    case AwaitingAck(_) => input.Deadline? || input.Silence? || input.Received? || Raised(input)
    case Holding => input.Silence? || input.Received? || Raised(input)
    case CheckingIface => input.IfaceSeen? || Raised(input)
    case Sleeping => input.Slept?
    case Done => false
  }

  predicate Raised(input: Input) {
    input.Broken? || input.Crashed?
  }

  predicate IsAck(frame: Frame, request: RequestId) {
    frame.Frame? && frame.requestId == Some(request) && frame.status in {Some("started"), Some("success")}
  }

  /** A frame is about this keeper's process unless it names another one. */
  predicate Concerns(frame: Frame, processId: string) {
    frame.Frame? && frame.processId in {None, Some(processId)}
  }

  /** A stop somebody asked for; it is never fought. */
  predicate RequestedStop(frame: Frame, processId: string) {
    && Concerns(frame, processId)
    && (frame.event == Some("stopped") || (frame.event == Some("finished") && frame.data == SIGTERM_EXIT))
  }

  /** xray ended without being asked to. */
  predicate UnexpectedDeath(frame: Frame, processId: string) {
    Concerns(frame, processId) && frame.event == Some("finished") && frame.data != SIGTERM_EXIT
  }

  function Fail(k: Keeper, guarded: bool): Keeper {
    k.(phase := Reporting(guarded), state := k.state.(status := Error))
  }

  /** The except branches: an OSError is recorded only before the first ack. */
  function Raise(k: Keeper, input: Input): Keeper {
    if input.Broken? && !k.state.status.Connecting? then k.(phase := Closing) else Fail(k, true)
  }

  function Arm(k: Keeper): Keeper {
    k.(phase := Opening, attempts := k.attempts + 1)
  }

  /** What follows a session in which xray died. */
  function AfterDeath(k: Keeper): Keeper {
    k.(phase := if k.attempts >= MAX_ATTEMPTS then Closing else Sleeping)
  }

  function ConnectedRecord(k: Keeper): Record {
    k.state.(status := Connected,
             server := k.setup.server,
             subscription := if k.setup.kind.Happ? then k.setup.subscription else k.state.subscription)
  }

  function AckStep(k: Keeper, request: RequestId, input: Input): Keeper {
    match input
    case Deadline => Fail(k, true)
    case Received(frame) =>
      if !(frame.Frame? && frame.requestId == Some(request)) then k
      else if IsAck(frame, request) then k.(phase := Announcing(request), state := ConnectedRecord(k))
      else Fail(k, true)
    case _ => k
  }

  function HoldStep(k: Keeper, input: Input): Keeper {
    match input
    case Silence => k.(phase := CheckingOwner)
    case Received(frame) =>
      if RequestedStop(frame, k.setup.processId) then k.(phase := Closing)
      else if UnexpectedDeath(frame, k.setup.processId) then AfterDeath(k)
      else k
    case _ => k
  }

  /** The keeper after one step, given what the state file held at that moment. */
  function Advance(k: Keeper, file: Option<Record>, input: Input): Keeper
    requires Accepts(k.phase, input)
  {
    if Raised(input) then Raise(k, input) else
    match k.phase
    case Claiming => k.(phase := Preparing)
    case Preparing =>
      (match input
       case Prepared(iface) => Arm(k.(iface := iface))
       case NoConfig => Fail(k, k.setup.kind.Happ?)
       case _ => Fail(k, true))
    case Opening => k.(phase := Sending)
    case Sending => k.(phase := AwaitingAck(input.request))
    case AwaitingAck(request) => AckStep(k, request, input)
    case Announcing(_) => k.(phase := Holding)
    case Holding => HoldStep(k, input)
    case CheckingOwner =>
      if !Owns(file, k.setup.pid) then k.(phase := Closing)
      else k.(phase := if k.iface.Some? then CheckingIface else Holding)
    case CheckingIface => if input.up then k.(phase := Holding) else AfterDeath(k)
    case Sleeping => k.(phase := Rechecking, backoff := Min(k.backoff * 3, MAX_BACKOFF))
    case Rechecking => if Owns(file, k.setup.pid) then Arm(k) else k.(phase := Closing)
    case Reporting(_) => k.(phase := Closing)
    case Closing => k.(phase := Done, state := k.state.(status := Exited))
  }

  /** The record a step tries to write, if it writes at all. */
  function Writes(k: Keeper): Option<Record> {
    match k.phase
    case Claiming | Announcing(_) | Reporting(_) => Some(k.state)
    case Closing => Some(k.state.(status := Exited))
    case _ => None
  }

  /** Writes that do not look at the file first: the claim, and one error report of the key keeper. */
  predicate Unguarded(phase: Phase) {
    phase == Claiming || phase == Reporting(false)
  }

  /** The state file after one step. */
  function FileAfter(k: Keeper, file: Option<Record>, input: Input): Option<Record> {
    if Writes(k).Some? && input == Access(true) && (Unguarded(k.phase) || Replaceable(file, k.setup.pid))
    then Writes(k)
    else file
  }
}
