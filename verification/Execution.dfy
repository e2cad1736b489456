/** One query execution in its worker thread: the one-execution lock, the connection and cursor it
    owns, and the order in which it lets go of them. Each step is one call into the lock, the driver
    or the broker, so that other threads may run between any two of them. */
module Execution {
  import opened Wrappers
  import opened BrokerModel

  datatype Outcome = Returned(source: SourceId) | Raised

  /** The call the worker thread is about to make. */
  datatype Phase =
    | Unstarted
    | Locking
    | Connecting
    | OpeningCursor
    | Registering(cursor: CursorId)
    | Executing(cursor: CursorId)
    | Fetching(cursor: CursorId)
    | Releasing(cursor: CursorId, outcome: Outcome)
    | ClosingCursor(cursor: CursorId, outcome: Outcome)
    | ClosingConnection(outcome: Outcome)
    | Unlocking(outcome: Outcome)
    | Finished(outcome: Outcome)

  /** What the worker thread has done so far. */
  datatype Event =
    | LockTaken | LockBusy | LockFreed
    | Connected | ConnectFailed | ConnectionClosed | ConnectionCloseFailed
    | CursorOpened | CursorFailed | CursorClosed | CursorCloseFailed
    | CursorRegistered | CursorRefused | ReleaseAttempted
    | Executed | ExecuteFailed
    | Admitted(source: SourceId) | AdmissionFailed

  /** How the call of the current phase went. */
  datatype Reply = Ok | Failed | Cursor(cursor: CursorId) | Result(source: SourceId)

  datatype Progress = Progress(phase: Phase, event: Event)

  predicate Fits(phase: Phase, reply: Reply) {
    match phase
    case Unstarted => false
    case Finished(_) => false
    case OpeningCursor => reply.Cursor? || reply.Failed?
    case Fetching(_) => reply.Result? || reply.Failed?
    case Releasing(_, _) => reply.Ok?
    case Unlocking(_) => reply.Ok?
    case _ => reply.Ok? || reply.Failed?
  }

  function Worsen(outcome: Outcome, reply: Reply): Outcome {
    if reply.Ok? then outcome else Raised
  }

  function Step(phase: Phase, reply: Reply): Progress
    requires Fits(phase, reply)
  {
    match phase
    case Locking => if reply.Ok? then Progress(Connecting, LockTaken) else Progress(Finished(Raised), LockBusy)
    case Connecting => if reply.Ok? then Progress(OpeningCursor, Connected) else Progress(Unlocking(Raised), ConnectFailed)
    case OpeningCursor =>
      if reply.Cursor? then Progress(Registering(reply.cursor), CursorOpened)
      else Progress(ClosingConnection(Raised), CursorFailed)
    case Registering(c) =>
      if reply.Ok? then Progress(Executing(c), CursorRegistered) else Progress(ClosingCursor(c, Raised), CursorRefused)
    case Executing(c) =>
      if reply.Ok? then Progress(Fetching(c), Executed) else Progress(Releasing(c, Raised), ExecuteFailed)
    case Fetching(c) =>
      if reply.Result? then Progress(Releasing(c, Returned(reply.source)), Admitted(reply.source))
      else Progress(Releasing(c, Raised), AdmissionFailed)
    case Releasing(c, o) => Progress(ClosingCursor(c, o), ReleaseAttempted)
    case ClosingCursor(_, o) =>
      Progress(ClosingConnection(Worsen(o, reply)), if reply.Ok? then CursorClosed else CursorCloseFailed)
    case ClosingConnection(o) =>
      Progress(Unlocking(Worsen(o, reply)), if reply.Ok? then ConnectionClosed else ConnectionCloseFailed)
    case Unlocking(o) => Progress(Finished(o), LockFreed)
  }

  // ----- what the phase says about resources -----

  predicate HoldsLock(phase: Phase) {
    !(phase.Unstarted? || phase.Locking? || phase.Finished?)
  }

  predicate ConnectionOpen(phase: Phase) {
    HoldsLock(phase) && !(phase.Connecting? || phase.Unlocking?)
  }

  predicate CursorOpen(phase: Phase) {
    ConnectionOpen(phase) && !(phase.OpeningCursor? || phase.ClosingConnection?)
  }

  /** The cursor of a phase between successful registration and release. */
  function Armed(phase: Phase): Option<CursorId> {
    if phase.Executing? || phase.Fetching? || phase.Releasing? then Some(phase.cursor) else None
  }

  /** The cursor object a phase owns. */
  function Owned(phase: Phase): Option<CursorId> {
    if CursorOpen(phase) then Some(phase.cursor) else None
  }

  // ----- the log -----

  /** The one log of an execution that has succeeded so far, up to the call it is about to make. */
  function Path(phase: Phase, source: SourceId): seq<Event> {
    match phase
    case Unstarted => []
    case Locking => []
    case Connecting => [LockTaken]
    case OpeningCursor => [LockTaken, Connected]
    case Registering(_) => [LockTaken, Connected, CursorOpened]
    case Executing(_) => [LockTaken, Connected, CursorOpened, CursorRegistered]
    case Fetching(_) => [LockTaken, Connected, CursorOpened, CursorRegistered, Executed]
    case Releasing(_, _) => [LockTaken, Connected, CursorOpened, CursorRegistered, Executed, Admitted(source)]
    case ClosingCursor(_, _) =>
      [LockTaken, Connected, CursorOpened, CursorRegistered, Executed, Admitted(source), ReleaseAttempted]
    case ClosingConnection(_) =>
      [LockTaken, Connected, CursorOpened, CursorRegistered, Executed, Admitted(source), ReleaseAttempted, CursorClosed]
    case Unlocking(_) =>
      [LockTaken, Connected, CursorOpened, CursorRegistered, Executed, Admitted(source), ReleaseAttempted, CursorClosed,
       ConnectionClosed]
    case Finished(_) =>
      [LockTaken, Connected, CursorOpened, CursorRegistered, Executed, Admitted(source), ReleaseAttempted, CursorClosed,
       ConnectionClosed, LockFreed]
  }

  function Result(phase: Phase): Option<Outcome> {
    if phase.Releasing? || phase.ClosingCursor? || phase.ClosingConnection? || phase.Unlocking? || phase.Finished?
    then Some(phase.outcome) else None
  }

  /** What was opened and not yet closed is exactly what the phase still owns, nothing is executed
      on an unregistered cursor, and a registered cursor is released before it is closed. */
  predicate Balanced(log: seq<Event>, phase: Phase) {
    && (HoldsLock(phase) <==> LockTaken in log && LockFreed !in log)
    && (ConnectionOpen(phase) <==> Connected in log && ConnectionClosed !in log && ConnectionCloseFailed !in log)
    && (CursorOpen(phase) <==> CursorOpened in log && CursorClosed !in log && CursorCloseFailed !in log)
    && (Executed in log || ExecuteFailed in log ==> CursorRegistered in log)
    && (CursorRegistered in log ==> CursorRefused !in log && (Armed(phase).Some? || ReleaseAttempted in log))
    && (Armed(phase).Some? ==> ReleaseAttempted !in log && CursorRegistered in log)
  }

  /** An execution that has not failed has done every step of the path, in order, and nothing else. */
  predicate OnPath(log: seq<Event>, phase: Phase) {
    && (Result(phase).None? ==> log == Path(phase, 0))
    && (Result(phase).Some? && Result(phase).value.Returned? ==> log == Path(phase, Result(phase).value.source))
  }

  predicate Accounts(log: seq<Event>, phase: Phase) {
    Balanced(log, phase) && OnPath(log, phase)
  }

  lemma PathBalances(phase: Phase)
    requires Result(phase).None?
    ensures Balanced(Path(phase, 0), phase)
  {
  }

  lemma StepOnPath(log: seq<Event>, phase: Phase, reply: Reply)
    requires OnPath(log, phase) && Fits(phase, reply)
    ensures OnPath(log + [Step(phase, reply).event], Step(phase, reply).phase)
  {
  }

  lemma StepBalanced(log: seq<Event>, phase: Phase, reply: Reply)
    requires Balanced(log, phase) && Fits(phase, reply)
    requires Result(phase).None? ==> log == Path(phase, 0)
    ensures Balanced(log + [Step(phase, reply).event], Step(phase, reply).phase)
  {
    if Result(phase).Some? {
      SecondHalfBalanced(log, phase, reply);
    } else if Result(Step(phase, reply).phase).None? {
      StepOnPath(log, phase, reply);
      PathBalances(Step(phase, reply).phase);
    } else {
      FailureBalanced(phase, reply);
    }
    hide *;
  }

  lemma SecondHalfBalanced(log: seq<Event>, phase: Phase, reply: Reply)
    requires Balanced(log, phase) && Fits(phase, reply) && Result(phase).Some?
    ensures Balanced(log + [Step(phase, reply).event], Step(phase, reply).phase)
  {
    var event := Step(phase, reply).event;
    assert forall e :: e in log + [event] <==> e in log || e == event;
    SecondHalfEvents(log, log + [event], phase, reply);
    hide *;
  }

  lemma SecondHalfEvents(log: seq<Event>, longer: seq<Event>, phase: Phase, reply: Reply)
    requires Balanced(log, phase) && Fits(phase, reply) && Result(phase).Some?
    requires forall e :: e in longer <==> e in log || e == Step(phase, reply).event
    ensures Balanced(longer, Step(phase, reply).phase)
  {
    hide Path;
  }

  lemma FailureBalanced(phase: Phase, reply: Reply)
    requires Fits(phase, reply) && Result(phase).None? && Result(Step(phase, reply).phase).Some?
    ensures Balanced(Path(phase, 0) + [Step(phase, reply).event], Step(phase, reply).phase)
  {
  }

  lemma StepAccounts(log: seq<Event>, phase: Phase, reply: Reply)
    requires Accounts(log, phase) && Fits(phase, reply)
    ensures Accounts(log + [Step(phase, reply).event], Step(phase, reply).phase)
  {
    hide Balanced;
    hide OnPath;
    if Result(phase).None? {
      OnPathStart(log, phase);
    }
    StepOnPath(log, phase, reply);
    StepBalanced(log, phase, reply);
  }

  lemma OnPathStart(log: seq<Event>, phase: Phase)
    requires OnPath(log, phase) && Result(phase).None?
    ensures log == Path(phase, 0)
  {
  }
}
