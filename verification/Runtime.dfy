/** The broker, the background executor and its worker threads as one interleaved system. A step is
    one locked broker operation, one driver call of a worker thread, one move of a coroutine between
    two awaits, or one driver cancellation. A thread that has taken cursors out of the broker owes
    their cancellation, and pays before it does anything else; other threads may run in between. */
module Runtime {
  import opened Wrappers
  import opened BrokerModel
  import opened BrokerProofs
  import R = BrokerRuns
  import opened Execution

  datatype Actor = EventLoop | Thread(id: RequestId) | Outside

  datatype Debt = Debt(actor: Actor, cursor: CursorId)

  /** Where the coroutine of one request stands. */
  datatype RunPhase =
    | Scheduling                  // submitted, task not yet created
    | Scheduled                   // task created, coroutine not yet begun
    | Waiting                     // for the work or the expiry timer, whichever is first
    | Polling                     // the timer fired first
    | Awaiting                    // for the work alone
    | Settling(source: SourceId)  // work returned; the timer is being cancelled
    | Failing                     // an exception is being recorded
    | Ended

  datatype Task = Task(run: RunPhase, phase: Phase, log: seq<Event>)

  /** Code between two awaits holds the event loop: a submission, or the cancel loop of close. */
  datatype LoopState = Free | Submitting(id: RequestId) | Closing(pending: seq<RequestId>)

  datatype World = World(
    machine: R.Machine,
    tasks: map<RequestId, Task>,
    lock: Option<RequestId>,
    loop: LoopState,
    closed: bool,
    waiting: seq<set<RequestId>>,    // the tasks each close() in progress waits for
    returned: bool,                  // some close() has returned
    owed: seq<Debt>,
    cursors: set<CursorId>,
    registered: multiset<CursorId>,
    cancelled: multiset<CursorId>,   // driver cancellations issued
    letGo: multiset<CursorId>)       // released while attached, or dropped at publication

  const START: World := World(R.EMPTY, map[], None, Free, false, [], false, [], {}, multiset{}, multiset{}, multiset{})

  datatype Action =
    | Submit(ttl: int, readings: seq<int>, now: int, tokens: seq<RequestId>)
    | CreateTask
    | AbandonTask(now: int)                       // task creation failed
    | StartRun(id: RequestId)
    | TimerFires(id: RequestId)
    | Poll(id: RequestId, now: int)
    | Collect(id: RequestId)                      // the work is done
    | PublishResult(id: RequestId, now: int)
    | RecordFailure(id: RequestId, now: int)
    | Spawn(id: RequestId, ok: bool)
    | Advance(id: RequestId, reply: Reply, now: int)
    | BeginClose(readings: seq<int>)
    | CancelNext(now: int)
    | AwaitTasks
    | FinishClose(i: nat)
    | OutsideCall(call: Call)
    | Deliver(i: nat)

  predicate IsOutside(call: Call) {
    call.Get? || call.Open? || call.List? || call.Cancel?
  }

  /** The broker operation of an action, if it performs one. */
  function BrokerCall(w: World, a: Action): Option<Call> {
    match a
    case Submit(ttl, readings, now, tokens) =>
      if w.closed then None else Some(Call.Submit(ttl, readings, now, tokens))
    case AbandonTask(now) => if w.loop.Submitting? then Some(Fail(w.loop.id, now)) else None
    case Poll(id, now) => Some(Get(id, now))
    case PublishResult(id, now) =>
      if id in w.tasks && w.tasks[id].run.Settling? then Some(Publish(id, w.tasks[id].run.source, now)) else None
    case RecordFailure(id, now) => Some(Fail(id, now))
    case Advance(id, _, now) =>
      if id !in w.tasks then None
      else if w.tasks[id].phase.Registering? then Some(Register(id, w.tasks[id].phase.cursor, now))
      else if w.tasks[id].phase.Releasing? then Some(Release(id, w.tasks[id].phase.cursor, now))
      else None
    case BeginClose(readings) => Some(List(readings))
    case CancelNext(now) => if w.loop.Closing? && w.loop.pending != [] then Some(Cancel(w.loop.pending[0], now)) else None
    case OutsideCall(call) => Some(call)
    case _ => None
  }

  function ActorOf(a: Action): Actor {
    match a
    case Advance(id, _, _) => Thread(id)
    case Spawn(id, _) => Thread(id)
    case OutsideCall(_) => Outside
    case Deliver(_) => Outside
    case _ => EventLoop
  }

  /** The request whose task an action moves. */
  function Subject(w: World, a: Action): Option<RequestId> {
    match a
    case CreateTask => if w.loop.Submitting? then Some(w.loop.id) else None
    case AbandonTask(_) => if w.loop.Submitting? then Some(w.loop.id) else None
    case StartRun(id) => Some(id)
    case TimerFires(id) => Some(id)
    case Poll(id, _) => Some(id)
    case Collect(id) => Some(id)
    case PublishResult(id, _) => Some(id)
    case RecordFailure(id, _) => Some(id)
    case Spawn(id, _) => Some(id)
    case Advance(id, _, _) => Some(id)
    case _ => None
  }

  predicate Idle(w: World, actor: Actor) {
    actor.Outside? || forall i :: 0 <= i < |w.owed| ==> w.owed[i].actor != actor
  }

  function AnswerTo(cfg: Config, w: World, call: Call): Answer
    requires Applicable(w.machine.table, call)
  {
    Apply(cfg, w.machine.table, call).answer
  }

  /** The tasks the executor still keeps. */
  function LiveTasks(tasks: map<RequestId, Task>): set<RequestId> {
    set id | id in tasks && !tasks[id].run.Ended?
  }

  /** An action's parameters make sense in a state: the checks Next relies on. */
  predicate Defined(w: World, a: Action) {
    && (BrokerCall(w, a).Some? ==> Applicable(w.machine.table, BrokerCall(w, a).value))
    && (Subject(w, a).Some? ==> Subject(w, a).value in w.tasks)
    && (a.Advance? ==> Fits(w.tasks[a.id].phase, a.reply))
    && (a.Deliver? ==> a.i < |w.owed|)
    && (a.FinishClose? ==> a.i < |w.waiting|)
  }

  /** When the subject's own coroutine or thread has reached the action. */
  predicate TaskGuard(t: Task, a: Action) {
    match a
    case CreateTask => t.run.Scheduling?
    case AbandonTask(_) => t.run.Scheduling?
    case StartRun(_) => t.run.Scheduled?
    case TimerFires(_) => t.run.Waiting? && !t.phase.Finished?
    case Poll(_, _) => t.run.Polling?
    case Collect(_) => (t.run.Waiting? || t.run.Awaiting?) && t.phase.Finished?
    case PublishResult(_, _) => t.run.Settling?
    case RecordFailure(_, _) => t.run.Failing?
    case Spawn(_, _) => (t.run.Waiting? || t.run.Polling? || t.run.Awaiting?) && t.phase.Unstarted?
    case Advance(_, reply, _) => Fits(t.phase, reply)
    case _ => true
  }

  /** When the shared state lets the action happen, and how it constrains the replies. */
  ghost predicate Guard(cfg: Config, w: World, a: Action)
    requires Defined(w, a)
  {
    match a
    case Submit(_, _, _, _) => w.loop.Free?
    case CreateTask => w.loop.Submitting?
    case AbandonTask(_) => w.loop.Submitting?
    case Spawn(_, _) => true
    case Advance(id, reply, now) =>
      var phase := w.tasks[id].phase;
      && (phase.Locking? ==> (reply.Ok? <==> w.lock.None?))
      && (phase.OpeningCursor? && reply.Cursor? ==> reply.cursor !in w.cursors)
      && (phase.Registering? ==> (reply.Ok? <==> AnswerTo(cfg, w, BrokerCall(w, a).value).OneView?))
    case CancelNext(_) => w.loop.Closing? && w.loop.pending != []
    case AwaitTasks => w.loop.Closing? && w.loop.pending == []
    case FinishClose(i) => w.loop.Free? && forall id :: id in w.waiting[i] && id in w.tasks ==> w.tasks[id].run.Ended?
    case OutsideCall(call) => IsOutside(call)
    case Deliver(i) => w.owed[i].actor.Outside? || forall j :: 0 <= j < i ==> w.owed[j].actor != w.owed[i].actor
    case _ => w.loop.Free?
  }

  ghost predicate Enabled(cfg: Config, w: World, a: Action) {
    && Defined(w, a)
    && Idle(w, ActorOf(a))
    && (BrokerCall(w, a).Some? ==> R.Enabled(cfg, w.machine, BrokerCall(w, a).value))
    && (Subject(w, a).Some? ==> TaskGuard(w.tasks[Subject(w, a).value], a))
    && Guard(cfg, w, a)
  }

  function Debts(actor: Actor, cancels: seq<CursorId>): (debts: seq<Debt>)
    ensures |debts| == |cancels|
    ensures forall i :: 0 <= i < |cancels| ==> debts[i] == Debt(actor, cancels[i])
  {
    seq(|cancels|, i requires 0 <= i < |cancels| => Debt(actor, cancels[i]))
  }

  /** The broker half of a step: the operation, and the cancellations its caller now owes. */
  function AfterCall(cfg: Config, w: World, actor: Actor, call: Call): World
    requires Applicable(w.machine.table, call)
  {
    var effect := Apply(cfg, w.machine.table, call);
    w.(machine := R.Next(cfg, w.machine, call),
       owed := w.owed + Debts(actor, effect.cancels),
       registered := w.registered + Arriving(call),
       letGo := w.letGo + LetGo(w.machine.table, call))
  }

  /** How the subject's task moves, given the answer of the action's broker operation. */
  function Moved(t: Task, a: Action, answer: Option<Answer>): Task
    requires a.Advance? ==> Fits(t.phase, a.reply)
  {
    match a
    case CreateTask => t.(run := Scheduled)
    case AbandonTask(_) => t.(run := Ended)
    case StartRun(_) => t.(run := Waiting)
    case TimerFires(_) => t.(run := Polling)
    case Poll(_, _) => t.(run := Awaiting)
    case Collect(_) =>
      if t.phase.Finished? && t.phase.outcome.Returned? then t.(run := Settling(t.phase.outcome.source))
      else t.(run := Failing)
    case PublishResult(_, _) => if answer.Some? && answer.value.OneView? then t.(run := Ended) else t.(run := Failing)
    case RecordFailure(_, _) => t.(run := Ended)
    case Spawn(_, ok) => if ok then t.(phase := Locking) else t.(phase := Finished(Raised))
    case Advance(_, reply, _) =>
      var step := Step(t.phase, reply);
      t.(phase := step.phase, log := t.log + [step.event])
    case _ => t
  }

  function PendingIds(views: seq<View>): seq<RequestId> {
    if views == [] then []
    else (if views[0].status.Pending? then [views[0].id] else []) + PendingIds(views[1..])
  }

  /** The broker half of a step, if the action has one. */
  function Half(cfg: Config, w: World, a: Action): World
    requires Defined(w, a)
  {
    if BrokerCall(w, a).Some? then AfterCall(cfg, w, ActorOf(a), BrokerCall(w, a).value) else w
  }

  function AnswerOf(cfg: Config, w: World, a: Action): Option<Answer>
    requires Defined(w, a)
  {
    if BrokerCall(w, a).Some? then Some(AnswerTo(cfg, w, BrokerCall(w, a).value)) else None
  }

  /** The request a step submits. */
  function Created(cfg: Config, w: World, a: Action): Option<RequestId>
    requires Defined(w, a)
  {
    if a.Submit? && BrokerCall(w, a).Some? then Issued(cfg, w.machine.table, BrokerCall(w, a).value) else None
  }

  function TasksAfter(cfg: Config, w: World, a: Action): map<RequestId, Task>
    requires Defined(w, a)
  {
    if Subject(w, a).Some? then
      var id := Subject(w, a).value;
      w.tasks[id := Moved(w.tasks[id], a, AnswerOf(cfg, w, a))]
    else if Created(cfg, w, a).Some? then w.tasks[Created(cfg, w, a).value := Task(Scheduling, Unstarted, [])]
    else w.tasks
  }

  function LockAfter(w: World, a: Action): Option<RequestId>
    requires Defined(w, a)
  {
    if !a.Advance? then w.lock
    else if w.tasks[a.id].phase.Locking? && a.reply.Ok? then Some(a.id)
    else if w.tasks[a.id].phase.Unlocking? then None
    else w.lock
  }

  function LoopAfter(cfg: Config, w: World, a: Action): LoopState
    requires Defined(w, a)
  {
    match a
    case Submit(_, _, _, _) =>
      if Created(cfg, w, a).Some? then LoopState.Submitting(Created(cfg, w, a).value) else w.loop
    case CreateTask => Free
    case AbandonTask(_) => Free
    case BeginClose(_) =>
      Closing(match AnswerOf(cfg, w, a) case Some(Views(views)) => PendingIds(views) case _ => [])
    case CancelNext(_) => if w.loop.Closing? && w.loop.pending != [] then Closing(w.loop.pending[1..]) else w.loop
    case AwaitTasks => Free
    case _ => w.loop
  }

  function WaitingAfter(w: World, a: Action): seq<set<RequestId>>
    requires Defined(w, a)
  {
    if a.AwaitTasks? then w.waiting + [LiveTasks(w.tasks)]
    else if a.FinishClose? then w.waiting[..a.i] + w.waiting[a.i + 1..]
    else w.waiting
  }

  function Next(cfg: Config, w: World, a: Action): World
    requires Defined(w, a)
  {
    var half := Half(cfg, w, a);
    World(
      half.machine,
      TasksAfter(cfg, w, a),
      LockAfter(w, a),
      LoopAfter(cfg, w, a),
      w.closed || a.BeginClose?,
      WaitingAfter(w, a),
      w.returned || a.FinishClose?,
      if a.Deliver? then w.owed[..a.i] + w.owed[a.i + 1..] else half.owed,
      if a.Advance? && a.reply.Cursor? then w.cursors + {a.reply.cursor} else w.cursors,
      half.registered,
      if a.Deliver? then w.cancelled + multiset{w.owed[a.i].cursor} else half.cancelled,
      half.letGo)
  }

  ghost predicate EnabledAll(cfg: Config, w: World, actions: seq<Action>)
    decreases |actions|
  {
    actions == [] || (Enabled(cfg, w, actions[0]) && EnabledAll(cfg, Next(cfg, w, actions[0]), actions[1..]))
  }

  ghost function Run(cfg: Config, w: World, actions: seq<Action>): World
    requires EnabledAll(cfg, w, actions)
    decreases |actions|
  {
    if actions == [] then w else Run(cfg, Next(cfg, w, actions[0]), actions[1..])
  }

  /** Some interleaving of enabled steps leads from the start to `w`. */
  ghost predicate Reachable(cfg: Config, w: World) {
    exists actions :: EnabledAll(cfg, START, actions) && Run(cfg, START, actions) == w
  }
}
