/** One execution as the nested cleanup code of the source, against a driver whose every call may
    fail, and its agreement with the phases of Execution. Other threads act through the replies. */
module QueryAdmission {
  import opened Wrappers
  import opened BrokerModel
  import opened Execution

  /** How the driver, the broker and the admission answer the calls of one execution. */
  datatype Script = Script(
    connect: Reply, open: Reply, register: Reply, execute: Reply, fetch: Reply, closeCursor: Reply, closeConnection: Reply)

  predicate Playable(script: Script) {
    && (script.connect.Ok? || script.connect.Failed?)
    && (script.open.Cursor? || script.open.Failed?)
    && (script.register.Ok? || script.register.Failed?)
    && (script.execute.Ok? || script.execute.Failed?)
    && (script.fetch.Result? || script.fetch.Failed?)
    && (script.closeCursor.Ok? || script.closeCursor.Failed?)
    && (script.closeConnection.Ok? || script.closeConnection.Failed?)
  }

  function ReplyIn(script: Script, free: bool, phase: Phase): (reply: Reply)
    requires Playable(script) && !phase.Unstarted? && !phase.Finished?
    ensures Fits(phase, reply)
  {
    match phase
    case Locking => if free then Ok else Reply.Failed
    case Connecting => script.connect
    case OpeningCursor => script.open
    case Registering(_) => script.register
    case Executing(_) => script.execute
    case Fetching(_) => script.fetch
    case Releasing(_, _) => Ok
    case ClosingCursor(_, _) => script.closeCursor
    case ClosingConnection(_) => script.closeConnection
    case Unlocking(_) => Ok
  }

  function Remaining(phase: Phase): nat {
    match phase
    case Unstarted => 11
    case Locking => 10
    case Connecting => 9
    case OpeningCursor => 8
    case Registering(_) => 7
    case Executing(_) => 6
    case Fetching(_) => 5
    case Releasing(_, _) => 4
    case ClosingCursor(_, _) => 3
    case ClosingConnection(_) => 2
    case Unlocking(_) => 1
    case Finished(_) => 0
  }

  datatype Ending = Ending(outcome: Outcome, log: seq<Event>)

  /** The phases followed to the end. */
  function Drive(script: Script, free: bool, phase: Phase, log: seq<Event>): Ending
    requires Playable(script) && !phase.Unstarted?
    decreases Remaining(phase)
  {
    if phase.Finished? then Ending(phase.outcome, log)
    else
      var step := Step(phase, ReplyIn(script, free, phase));
      Drive(script, free, step.phase, log + [step.event])
  }

  lemma {:induction false} DriveAccounts(script: Script, free: bool, phase: Phase, log: seq<Event>)
    requires Playable(script) && !phase.Unstarted? && Accounts(log, phase)
    ensures var end := Drive(script, free, phase, log);
            Accounts(end.log, Finished(end.outcome))
    decreases Remaining(phase)
  {
    hide Accounts;
    if !phase.Finished? {
      var reply := ReplyIn(script, free, phase);
      StepAccounts(log, phase, reply);
      DriveAccounts(script, free, Step(phase, reply).phase, log + [Step(phase, reply).event]);
    }
  }

  /** An execution returns a source exactly when the lock was free and every call succeeded, and it is then
      the source that was fetched. */
  lemma ReturnsIff(script: Script, free: bool, source: SourceId)
    requires Playable(script)
    ensures Drive(script, free, Locking, []).outcome == Returned(source) <==>
              && free && script.connect == Ok && script.open.Cursor? && script.register == Ok && script.execute == Ok
              && script.fetch == Reply.Result(source) && script.closeCursor == Ok && script.closeConnection == Ok
  {
    ReturnsFrom(script, free, Locking, [], source);
  }

  /** What is still to go right in this phase. */
  predicate GoesRight(script: Script, free: bool, phase: Phase, source: SourceId) {
    var left := Remaining(phase);
    && (left >= 10 ==> free) && (left >= 9 ==> script.connect == Ok) && (left >= 8 ==> script.open.Cursor?)
    && (left >= 7 ==> script.register == Ok) && (left >= 6 ==> script.execute == Ok)
    && (left >= 5 ==> script.fetch == Reply.Result(source)) && (left < 5 ==> phase.outcome == Returned(source))
    && (left >= 3 ==> script.closeCursor == Ok) && (left >= 2 ==> script.closeConnection == Ok)
  }

  lemma {:induction false} ReturnsFrom(script: Script, free: bool, phase: Phase, log: seq<Event>, source: SourceId)
    requires Playable(script) && !phase.Unstarted?
    ensures Drive(script, free, phase, log).outcome == Returned(source) <==> GoesRight(script, free, phase, source)
    decreases Remaining(phase)
  {
    if !phase.Finished? {
      var step := Step(phase, ReplyIn(script, free, phase));
      ReturnsFrom(script, free, step.phase, log + [step.event], source);
      Follow(script, free, phase, log);
      StepGoesRight(script, free, phase, source);
    }
    hide Step;
    hide ReplyIn;
    hide GoesRight;
  }

  lemma StepGoesRight(script: Script, free: bool, phase: Phase, source: SourceId)
    requires Playable(script) && !phase.Unstarted? && !phase.Finished?
    ensures GoesRight(script, free, phase, source)
            <==> GoesRight(script, free, Step(phase, ReplyIn(script, free, phase)).phase, source)
  {
  }

  class SnowflakeQueryAdmission {
    var active: bool  // the one-execution lock

    constructor ()
      ensures !active
    {
      active := false;
    }

    /** The lock is refused or held for exactly this execution; whatever the driver does, every
        resource opened is closed again, and a source comes back only after the full path. */
    method Execute(script: Script) returns (outcome: Outcome, log: seq<Event>)
      requires Playable(script)
      modifies this
      ensures active == old(active)
      ensures Ending(outcome, log) == Drive(script, !old(active), Locking, [])
      ensures Accounts(log, Finished(outcome))
    {
      ghost var free := !active;
      ghost var target := Drive(script, free, Locking, []);
      DriveAccounts(script, free, Locking, []);
      hide Accounts;
      hide Drive;
      Follow(script, free, Locking, []);
      assert [] + [LockBusy] == [LockBusy] && [] + [LockTaken] == [LockTaken];
      if active {
        outcome, log := Raised, [LockBusy];
        Arrived(script, free, outcome, log);
        return;
      }
      active := true;
      log := [LockTaken];
      outcome, log := RequestCursor(script, free, log);
      active := false;
      Follow(script, free, Unlocking(outcome), log);
      log := log + [LockFreed];
      Arrived(script, free, outcome, log);
    }

    /** The connection and cursor owned for one request, around the body that uses the cursor. */
    method RequestCursor(script: Script, ghost free: bool, before: seq<Event>) returns (outcome: Outcome, log: seq<Event>)
      requires Playable(script)
      ensures Drive(script, free, Unlocking(outcome), log) == Drive(script, free, Connecting, before)
    {
      hide Drive;
      Follow(script, free, Connecting, before);
      if script.connect.Failed? {
        return Raised, before + [ConnectFailed];
      }
      log := before + [Connected];
      Follow(script, free, OpeningCursor, log);
      if script.open.Failed? {
        log := log + [CursorFailed];
        outcome := Raised;
      } else {
        log := log + [CursorOpened];
        outcome, log := UseCursor(script, free, script.open.cursor, log);
        Follow(script, free, ClosingCursor(script.open.cursor, outcome), log);
        if script.closeCursor.Ok? {
          log := log + [CursorClosed];
        } else {
          log := log + [CursorCloseFailed];
          outcome := Raised;
        }
      }
      Follow(script, free, ClosingConnection(outcome), log);
      if script.closeConnection.Ok? {
        log := log + [ConnectionClosed];
      } else {
        log := log + [ConnectionCloseFailed];
        outcome := Raised;
      }
    }

    /** The body of the with statement: register, execute, fetch, always release. */
    method UseCursor(script: Script, ghost free: bool, cursor: CursorId, before: seq<Event>)
      returns (outcome: Outcome, log: seq<Event>)
      requires Playable(script)
      ensures Drive(script, free, ClosingCursor(cursor, outcome), log) == Drive(script, free, Registering(cursor), before)
    {
      hide Drive;
      Follow(script, free, Registering(cursor), before);
      if script.register.Failed? {
        return Raised, before + [CursorRefused];
      }
      log := before + [CursorRegistered];
      Follow(script, free, Executing(cursor), log);
      if script.execute.Failed? {
        log := log + [ExecuteFailed];
        outcome := Raised;
      } else {
        log := log + [Executed];
        Follow(script, free, Fetching(cursor), log);
        if script.fetch.Failed? {
          log := log + [AdmissionFailed];
          outcome := Raised;
        } else {
          log := log + [Admitted(script.fetch.source)];
          outcome := Returned(script.fetch.source);
        }
      }
      Follow(script, free, Releasing(cursor, outcome), log);
      log := log + [ReleaseAttempted];
    }
  }

  lemma Follow(script: Script, free: bool, phase: Phase, log: seq<Event>)
    requires Playable(script) && !phase.Unstarted? && !phase.Finished?
    ensures var step := Step(phase, ReplyIn(script, free, phase));
            Drive(script, free, phase, log) == Drive(script, free, step.phase, log + [step.event])
  {
  }

  lemma Arrived(script: Script, free: bool, outcome: Outcome, log: seq<Event>)
    requires Playable(script)
    ensures Drive(script, free, Finished(outcome), log) == Ending(outcome, log)
  {
  }
}
