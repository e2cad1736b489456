/** The viewer's database worker client: calls become numbered messages, replies settle the promises of
    the calls they answer, and failure settles all that are left. */
module WorkerRpc {
  import opened Wrappers

  type Promise = nat

  datatype ReplyType = Ack | Viewport

  datatype Incoming =
    | Reply(kind: ReplyType, sequence: Option<int>, value: int)   // no sequence: not a safe integer
    | Destroyed
    | FailedMessage
    | ReadyMessage
    | Unknown

  datatype Posted =
    | Initialize
    | LoadRequest(requestId: int, sequence: nat)
    | ViewportRequest(offset: int, limit: int, sequence: nat)
    | AbortRequest
    | DestroyRequest

  datatype Entry = Entry(sequence: nat, kind: ReplyType, promise: Promise)

  datatype Outcome = Resolved(value: int) | Rejected
  datatype Settlement = Settlement(promise: Promise, outcome: Outcome)

  datatype Shown = ShownReady | ShownFailed

  /** A load suspended until the worker is ready. */
  datatype Waiting = Waiting(promise: Promise, requestId: int)

  /** The closure variables, and the log of everything visible outside. The reply map is kept in
      insertion order. */
  datatype Client = Client(
    failed: bool, loadStarted: bool, ready: bool, sequence: nat, replies: seq<Entry>, waiting: Option<Waiting>,
    promises: nat, settled: seq<Settlement>, posted: seq<Posted>, shown: seq<Shown>, terminations: nat)

  const STARTED: Client := Client(false, false, false, 0, [], None, 0, [], [Initialize], [], 0)

  datatype Event =
    | OnMessage(message: Incoming)
    | OnError
    | Load(requestId: int)
    | Resume                  // the ready promise has resolved: the waiting load goes on
    | GetViewport(offset: int, limit: int)
    | Destroy

  // ----- one event -----

  function Rejections(replies: seq<Entry>): (settlements: seq<Settlement>)
    ensures |settlements| == |replies|
  {
    seq(|replies|, i requires 0 <= i < |replies| => Settlement(replies[i].promise, Rejected))
  }

  function RejectReplies(c: Client): Client {
    c.(settled := c.settled + Rejections(c.replies), replies := [])
  }

  function Fail(c: Client): Client {
    if c.failed then c
    else
      RejectReplies(c.(failed := true, ready := true)).(shown := c.shown + [ShownFailed], terminations := c.terminations + 1)
  }

  function FindReply(replies: seq<Entry>, sequence: int): (k: nat)
    ensures k <= |replies|
    ensures k < |replies| ==> replies[k].sequence == sequence
    ensures forall j :: 0 <= j < k ==> replies[j].sequence != sequence
  {
    if replies == [] || replies[0].sequence == sequence then 0 else 1 + FindReply(replies[1..], sequence)
  }

  function Receive(c: Client, message: Incoming): Client {
    match message
    case Reply(kind, sequence, value) =>
      if sequence.None? then Fail(c)
      else
        var k := FindReply(c.replies, sequence.value);
        if k == |c.replies| || c.replies[k].kind != kind then Fail(c)
        else c.(settled := c.settled + [Settlement(c.replies[k].promise, Resolved(value))],
                replies := c.replies[..k] + c.replies[k + 1..])
    case Destroyed => RejectReplies(c.(failed := true)).(terminations := c.terminations + 1)
    case FailedMessage => Fail(c)
    case ReadyMessage => c.(ready := true, shown := c.shown + [ShownReady])
    case Unknown => Fail(c)
  }

  function WithSequence(message: Posted, sequence: nat): Posted {
    match message
    case LoadRequest(requestId, _) => LoadRequest(requestId, sequence)
    case ViewportRequest(offset, limit, _) => ViewportRequest(offset, limit, sequence)
    case other => other
  }

  function Send(c: Client, kind: ReplyType, message: Posted, promise: Promise): Client {
    if c.failed then c.(settled := c.settled + [Settlement(promise, Rejected)])
    else
      var next := c.sequence + 1;
      c.(sequence := next, replies := c.replies + [Entry(next, kind, promise)],
         posted := c.posted + [WithSequence(message, next)])
  }

  function StartLoad(c: Client, requestId: int): Client {
    var promise := c.promises;
    if c.loadStarted then
      var stopped := RejectReplies(c.(posted := c.posted + (if c.failed then [] else [AbortRequest]),
                                      failed := true, ready := true, promises := c.promises + 1));
      stopped.(settled := stopped.settled + [Settlement(promise, Rejected)])
    else c.(loadStarted := true, waiting := Some(Waiting(promise, requestId)), promises := c.promises + 1)
  }

  function DestroyStep(c: Client): Client {
    if c.failed then c
    else RejectReplies(c.(posted := c.posted + [DestroyRequest], ready := true, failed := true))
  }

  predicate Enabled(c: Client, e: Event) {
    e.Resume? ==> c.ready && c.waiting.Some?
  }

  function Next(c: Client, e: Event): Client
    requires Enabled(c, e)
  {
    match e
    case OnMessage(message) => Receive(c, message)
    case OnError => Fail(c)
    case Load(requestId) => StartLoad(c, requestId)
    case Resume =>
      Send(c.(waiting := None), Ack, LoadRequest(c.waiting.value.requestId, 0), c.waiting.value.promise)
    case GetViewport(offset, limit) =>
      Send(c.(promises := c.promises + 1), Viewport, ViewportRequest(offset, limit, 0), c.promises)
    case Destroy => DestroyStep(c)
  }

  predicate EnabledAll(c: Client, events: seq<Event>)
    decreases |events|
  {
    events == [] || (Enabled(c, events[0]) && EnabledAll(Next(c, events[0]), events[1..]))
  }

  function Run(c: Client, events: seq<Event>): Client
    requires EnabledAll(c, events)
    decreases |events|
  {
    if events == [] then c else Run(Next(c, events[0]), events[1..])
  }

  // ----- the client itself -----

  class DatabaseWorker {
    var failed: bool
    var loadStarted: bool
    var ready: bool
    var sequence: nat
    var replies: seq<Entry>
    var waiting: Option<Waiting>
    var promises: nat
    var settled: seq<Settlement>
    var posted: seq<Posted>
    var shown: seq<Shown>
    var terminations: nat

    function State(): Client
      reads this
    {
      Client(failed, loadStarted, ready, sequence, replies, waiting, promises, settled, posted, shown, terminations)
    }

    constructor ()
      ensures State() == STARTED
    {
      failed, loadStarted, ready, sequence, replies, waiting := false, false, false, 0, [], None;
      promises, settled, posted, shown, terminations := 0, [], [], [], 0;
      new;
      posted := posted + [Initialize];
    }

    method RejectAllReplies()
      modifies this
      ensures State() == RejectReplies(old(State()))
    {
      ghost var before := State();
      var i := 0;
      while i < |replies|
        invariant 0 <= i <= |replies| && replies == before.replies
        invariant State() == before.(settled := before.settled + Rejections(before.replies[..i]))
      {
        settled := settled + [Settlement(replies[i].promise, Rejected)];
        assert before.replies[..i + 1] == before.replies[..i] + [before.replies[i]];
        assert Rejections(before.replies[..i + 1])
            == Rejections(before.replies[..i]) + [Settlement(before.replies[i].promise, Rejected)];
        i := i + 1;
      }
      assert before.replies[..i] == before.replies;
      replies := [];
    }

    method FailNow()
      modifies this
      ensures State() == Fail(old(State()))
    {
      if failed {
        return;
      }
      failed := true;
      ready := true;
      RejectAllReplies();
      shown := shown + [ShownFailed];
      terminations := terminations + 1;
    }

    method OnMessage(message: Incoming)
      modifies this
      ensures State() == Next(old(State()), Event.OnMessage(message))
    {
      if message.Reply? {
        if message.sequence.None? {
          FailNow();
          return;
        }
        var k := FindReply(replies, message.sequence.value);
        if k == |replies| || replies[k].kind != message.kind {
          FailNow();
          return;
        }
        settled := settled + [Settlement(replies[k].promise, Resolved(message.value))];
        replies := replies[..k] + replies[k + 1..];
        return;
      }
      if message.Destroyed? {
        failed := true;
        RejectAllReplies();
        terminations := terminations + 1;
        return;
      }
      if message.FailedMessage? {
        FailNow();
        return;
      }
      if !message.ReadyMessage? {
        FailNow();
        return;
      }
      ready := true;
      shown := shown + [ShownReady];
    }

    method OnError()
      modifies this
      ensures State() == Next(old(State()), Event.OnError)
    {
      FailNow();
    }

    method SendMessage(kind: ReplyType, message: Posted, promise: Promise)
      modifies this
      ensures State() == Send(old(State()), kind, message, promise)
    {
      if failed {
        settled := settled + [Settlement(promise, Rejected)];
        return;
      }
      sequence := sequence + 1;
      replies := replies + [Entry(sequence, kind, promise)];
      posted := posted + [WithSequence(message, sequence)];
    }

    /** The part of load before its await. */
    method Load(requestId: int) returns (promise: Promise)
      modifies this
      ensures State() == Next(old(State()), Event.Load(requestId)) && promise == old(promises)
    {
      promise := promises;
      promises := promises + 1;
      if loadStarted {
        if !failed {
          posted := posted + [AbortRequest];
        }
        failed := true;
        ready := true;
        RejectAllReplies();
        settled := settled + [Settlement(promise, Rejected)];
        return;
      }
      loadStarted := true;
      waiting := Some(Waiting(promise, requestId));
    }

    /** The part of load after its await. */
    method ResumeLoad()
      requires ready && waiting.Some?
      modifies this
      ensures State() == Next(old(State()), Event.Resume)
    {
      var load := waiting.value;
      waiting := None;
      SendMessage(Ack, LoadRequest(load.requestId, 0), load.promise);
    }

    method GetViewport(offset: int, limit: int) returns (promise: Promise)
      modifies this
      ensures State() == Next(old(State()), Event.GetViewport(offset, limit)) && promise == old(promises)
    {
      promise := promises;
      promises := promises + 1;
      SendMessage(Viewport, ViewportRequest(offset, limit, 0), promise);
    }

    method Destroy()
      modifies this
      ensures State() == Next(old(State()), Event.Destroy)
    {
      if failed {
        return;
      }
      posted := posted + [DestroyRequest];
      ready := true;
      failed := true;
      RejectAllReplies();
    }
  }
}
