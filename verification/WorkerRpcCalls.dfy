/** The requests the database worker is sent, and what becomes of the client's promises, said of the calls
    made and the messages received. */
module WorkerRpcCalls {
  import opened Wrappers
  import opened WorkerRpc
  import opened WorkerRpcProofs
  import opened WorkerRpcShutdown

  // ----- the calls of a run -----

  /** The calls made, in order; promise `p` was handed out to call `p`. */
  function Calls(events: seq<Event>): seq<Event> {
    if events == [] then []
    else
      var front, last := events[..|events| - 1], events[|events| - 1];
      Calls(front) + if last.Load? || last.GetViewport? then [last] else []
  }

  function LoadsIn(events: seq<Event>): seq<int> {
    if events == [] then []
    else
      var front, last := events[..|events| - 1], events[|events| - 1];
      LoadsIn(front) + if last.Load? then [last.requestId] else []
  }

  /** What the worker is to be asked: for each viewport call made before failure its own rows, and for the
      first load, when it goes on before failure, its own request. The requests are numbered from 1. */
  ghost function ToAsk(events: seq<Event>): seq<Posted>
    requires EnabledAll(STARTED, events)
    decreases |events|
  {
    if events == [] then []
    else
      var front, last := events[..|events| - 1], events[|events| - 1];
      assert events == front + [last];
      RunSnoc(STARTED, front, last);
      var asked := ToAsk(front);
      if Run(STARTED, front).failed then asked
      else match last
        case GetViewport(offset, limit) => asked + [ViewportRequest(offset, limit, |asked| + 1)]
        case Resume => asked + [LoadRequest(if LoadsIn(front) != [] then LoadsIn(front)[0] else 0, |asked| + 1)]
        case _ => asked
  }

  /** The requests among the messages posted. */
  function Requests(posted: seq<Posted>): seq<Posted> {
    if posted == [] then []
    else
      var front, last := posted[..|posted| - 1], posted[|posted| - 1];
      Requests(front) + if last.LoadRequest? || last.ViewportRequest? then [last] else []
  }

  /** The request that asks for what this call asked for. */
  predicate AsksFor(message: Posted, call: Event, sequence: int) {
    match call
    case Load(requestId) => message.LoadRequest? && message.requestId == requestId && message.sequence == sequence
    case GetViewport(offset, limit) =>
      message.ViewportRequest? && message.offset == offset && message.limit == limit && message.sequence == sequence
    case _ => false
  }

  /** The type of reply that answers this call. */
  predicate AnsweredBy(call: Event, kind: ReplyType) {
    (call.Load? && kind.Ack?) || (call.GetViewport? && kind.Viewport?)
  }

  /** An outstanding entry belongs to the call its promise was handed out to. */
  ghost predicate Belongs(posted: seq<Posted>, calls: seq<Event>, e: Entry) {
    && e.promise < |calls| && AnsweredBy(calls[e.promise], e.kind)
    && exists k :: 0 <= k < |posted| && AsksFor(posted[k], calls[e.promise], e.sequence)
  }

  ghost predicate InStep(c: Client, calls: seq<Event>, loads: seq<int>, asked: seq<Posted>) {
    && c.promises == |calls| && c.sequence == |asked| && Requests(c.posted) == asked
    && (c.loadStarted <==> loads != [])
    && (c.waiting.Some? ==>
          && loads != [] && c.waiting.value.requestId == loads[0]
          && c.waiting.value.promise < |calls| && calls[c.waiting.value.promise] == Load(loads[0]))
    && forall i :: 0 <= i < |c.replies| ==> Belongs(c.posted, calls, c.replies[i])
  }

  // ----- every event keeps it -----

  lemma RequestsSnoc(posted: seq<Posted>, message: Posted)
    ensures Requests(posted + [message])
            == Requests(posted) + if message.LoadRequest? || message.ViewportRequest? then [message] else []
  {
    assert (posted + [message])[..|posted|] == posted;
  }

  lemma BelongsStill(posted: seq<Posted>, calls: seq<Event>, e: Entry, more: seq<Posted>, next: seq<Event>)
    requires Belongs(posted, calls, e)
    ensures Belongs(posted + more, calls + next, e)
  {
    var k :| 0 <= k < |posted| && AsksFor(posted[k], calls[e.promise], e.sequence);
    assert (posted + more)[k] == posted[k] && (calls + next)[e.promise] == calls[e.promise];
  }

  lemma AllBelongStill(c: Client, calls: seq<Event>, more: seq<Posted>, next: seq<Event>)
    requires forall i :: 0 <= i < |c.replies| ==> Belongs(c.posted, calls, c.replies[i])
    ensures forall i :: 0 <= i < |c.replies| ==> Belongs(c.posted + more, calls + next, c.replies[i])
  {
    forall i | 0 <= i < |c.replies| ensures Belongs(c.posted + more, calls + next, c.replies[i]) {
      BelongsStill(c.posted, calls, c.replies[i], more, next);
    }
  }

  /** A message or an error only takes entries away. */
  lemma ReceiveInStep(c: Client, e: Event, calls: seq<Event>, loads: seq<int>, asked: seq<Posted>)
    requires InStep(c, calls, loads, asked) && (e.OnMessage? || e.OnError?)
    ensures InStep(Next(c, e), calls, loads, asked)
  {
    OnlyFewerReplies(c, e);
    FewerInStep(c, Next(c, e), calls, loads, asked);
    hide *;
  }

  lemma OnlyFewerReplies(c: Client, e: Event)
    requires e.OnMessage? || e.OnError?
    ensures var n := Next(c, e);
            && n.promises == c.promises && n.sequence == c.sequence && n.posted == c.posted
            && n.loadStarted == c.loadStarted && n.waiting == c.waiting
            && forall entry :: entry in n.replies ==> entry in c.replies
  {
    hide Rejections;
  }

  lemma FewerInStep(c: Client, n: Client, calls: seq<Event>, loads: seq<int>, asked: seq<Posted>)
    requires InStep(c, calls, loads, asked)
    requires n.promises == c.promises && n.sequence == c.sequence && n.posted == c.posted
    requires n.loadStarted == c.loadStarted && n.waiting == c.waiting
    requires forall entry :: entry in n.replies ==> entry in c.replies
    ensures InStep(n, calls, loads, asked)
  {
    hide Belongs;
    hide Requests;
    forall i | 0 <= i < |n.replies| ensures Belongs(n.posted, calls, n.replies[i]) {
      assert n.replies[i] in c.replies;
    }
  }

  lemma LoadInStep(c: Client, requestId: int, calls: seq<Event>, loads: seq<int>, asked: seq<Posted>)
    requires InStep(c, calls, loads, asked)
    ensures InStep(Next(c, Load(requestId)), calls + [Load(requestId)], loads + [requestId], asked)
  {
    RequestsSnoc(c.posted, AbortRequest);
    assert c.posted + [] == c.posted;
    AllBelongStill(c, calls, [], [Load(requestId)]);
    hide Belongs;
    hide Requests;
    hide Rejections;
  }

  /** One more request, with the entry that awaits its reply. */
  lemma AskedInStep(posted: seq<Posted>, message: Posted, calls: seq<Event>, next: seq<Event>, replies: seq<Entry>, entry: Entry)
    requires forall i :: 0 <= i < |replies| ==> Belongs(posted, calls, replies[i])
    requires message.LoadRequest? || message.ViewportRequest?
    requires entry.promise < |calls + next| && AnsweredBy((calls + next)[entry.promise], entry.kind)
    requires AsksFor(message, (calls + next)[entry.promise], entry.sequence)
    ensures Requests(posted + [message]) == Requests(posted) + [message]
    ensures forall i :: 0 <= i < |replies + [entry]| ==> Belongs(posted + [message], calls + next, (replies + [entry])[i])
  {
    RequestsSnoc(posted, message);
    hide Requests;
    assert (posted + [message])[|posted|] == message;
    assert Belongs(posted + [message], calls + next, entry);
    forall i | 0 <= i < |replies| ensures Belongs(posted + [message], calls + next, replies[i]) {
      BelongsStill(posted, calls, replies[i], [message], next);
    }
    hide Belongs;
  }

  lemma ViewportInStep(c: Client, offset: int, limit: int, calls: seq<Event>, loads: seq<int>, asked: seq<Posted>)
    requires InStep(c, calls, loads, asked)
    ensures InStep(Next(c, GetViewport(offset, limit)), calls + [GetViewport(offset, limit)], loads,
                   if c.failed then asked else asked + [ViewportRequest(offset, limit, |asked| + 1)])
  {
    hide Belongs;
    hide Requests;
    var call, message := GetViewport(offset, limit), ViewportRequest(offset, limit, |asked| + 1);
    assert calls <= calls + [call] && (calls + [call])[|calls|] == call;
    if c.failed {
      AllBelongStill(c, calls, [], [call]);
      assert c.posted + [] == c.posted;
    } else {
      AskedInStep(c.posted, message, calls, [call], c.replies, Entry(|asked| + 1, Viewport, |calls|));
    }
  }

  lemma ResumeInStep(c: Client, calls: seq<Event>, loads: seq<int>, asked: seq<Posted>)
    requires InStep(c, calls, loads, asked) && Enabled(c, Resume)
    ensures loads != []
    ensures InStep(Next(c, Resume), calls, loads, if c.failed then asked else asked + [LoadRequest(loads[0], |asked| + 1)])
  {
    hide Belongs;
    hide Requests;
    assert calls + [] == calls;
    if !c.failed {
      var message, entry := LoadRequest(loads[0], |asked| + 1), Entry(|asked| + 1, Ack, c.waiting.value.promise);
      AskedInStep(c.posted, message, calls, [], c.replies, entry);
      assert Next(c, Resume).posted == c.posted + [message] && Next(c, Resume).replies == c.replies + [entry];
    }
  }

  lemma DestroyInStep(c: Client, calls: seq<Event>, loads: seq<int>, asked: seq<Posted>)
    requires InStep(c, calls, loads, asked)
    ensures InStep(Next(c, Destroy), calls, loads, asked)
  {
    RequestsSnoc(c.posted, DestroyRequest);
    hide Belongs;
    hide Requests;
  }

  lemma {:induction false} RunInStep(events: seq<Event>)
    requires EnabledAll(STARTED, events)
    ensures InStep(Run(STARTED, events), Calls(events), LoadsIn(events), ToAsk(events))
    decreases |events|
  {
    hide InStep;
    hide Next;
    hide Enabled;
    hide EnabledAll;
    hide Run;
    if events == [] {
      NothingAsked();
    } else {
      var front, e := events[..|events| - 1], events[|events| - 1];
      assert events == front + [e];
      RunSnoc(STARTED, front, e);
      RunInStep(front);
      var c, calls, loads, asked := Run(STARTED, front), Calls(front), LoadsIn(front), ToAsk(front);
      assert calls + [] == calls && loads + [] == loads;
      match e
      case OnMessage(_) => { ReceiveInStep(c, e, calls, loads, asked); }
      case OnError => { ReceiveInStep(c, e, calls, loads, asked); }
      case Load(requestId) => { LoadInStep(c, requestId, calls, loads, asked); }
      case Resume => { ResumeInStep(c, calls, loads, asked); }
      case GetViewport(offset, limit) => { ViewportInStep(c, offset, limit, calls, loads, asked); }
      case Destroy => { DestroyInStep(c, calls, loads, asked); }
    }
  }

  lemma NothingAsked()
    ensures EnabledAll(STARTED, []) && InStep(Run(STARTED, []), Calls([]), LoadsIn([]), ToAsk([]))
  {
    RequestsSnoc([], Initialize);
    assert [] + [Initialize] == [Initialize];
  }

  // ----- theorems over every run -----

  /** The requests posted in a run are, in order and numbered from 1, those of its viewport calls made before
      failure, each with its own rows, and of its first load. */
  lemma RequestsAreTheCalls(events: seq<Event>)
    requires EnabledAll(STARTED, events)
    ensures Requests(Run(STARTED, events).posted) == ToAsk(events)
    ensures Run(STARTED, events).promises == |Calls(events)|
  {
    RunInStep(events);
    hide Run;
    hide ToAsk;
  }

  /** A promise is resolved only by a reply to the request that asked for what its own call asked for. */
  lemma ResolvedByOwnCall(events: seq<Event>, e: Event, i: nat)
    requires EnabledAll(STARTED, events) && Enabled(Run(STARTED, events), e)
    requires |Run(STARTED, events).settled| <= i < |Next(Run(STARTED, events), e).settled|
    requires Next(Run(STARTED, events), e).settled[i].outcome.Resolved?
    ensures var c, n, calls := Run(STARTED, events), Next(Run(STARTED, events), e), Calls(events);
            var p := n.settled[i].promise;
            && e.OnMessage? && e.message.Reply? && e.message.sequence.Some? && i == |c.settled| && |n.settled| == i + 1
            && n.settled[i].outcome == Resolved(e.message.value)
            && p < |calls| && AnsweredBy(calls[p], e.message.kind)
            && exists k :: 0 <= k < |c.posted| && AsksFor(c.posted[k], calls[p], e.message.sequence.value)
  {
    RunInStep(events);
    var c := Run(STARTED, events);
    OnlyRepliesResolve(c, e, i);
    var k := FindReply(c.replies, e.message.sequence.value);
    assert Belongs(c.posted, Calls(events), c.replies[k]);
    hide *;
    BelongsMeans(c.posted, Calls(events), c.replies[k]);
  }

  /** The event makes a client fail that has not failed yet. */
  ghost predicate Fails(c: Client, e: Event, loaded: bool) {
    || e.OnError? || e.Destroy? || (e.Load? && loaded)
    || (e.OnMessage? && (e.message.Destroyed? || e.message.FailedMessage? || e.message.Unknown?))
    || (e.OnMessage? && e.message.Reply? && !Expected(c, e.message))
  }

  /** When the client fails: at an error of the worker, a message that reports one or is not understood, the
      worker's end, a reply that no outstanding call expects, a second load, and destruction. Everything
      outstanding is then rejected, in the order of the calls, and nothing else is settled but the second load
      itself. */
  lemma FailsExactly(events: seq<Event>, e: Event)
    requires EnabledAll(STARTED, events) && Enabled(Run(STARTED, events), e) && !Run(STARTED, events).failed
    ensures var c, n := Run(STARTED, events), Next(Run(STARTED, events), e);
            && (n.failed <==> Fails(c, e, LoadsIn(events) != []))
            && (n.failed ==>
                  n.replies == [] &&
                  n.settled == c.settled + AllRejected(c.replies)
                               + if e.Load? then [Settlement(|Calls(events)|, Rejected)] else [])
  {
    RunInStep(events);
    var c := Run(STARTED, events);
    StartedOk();
    RunKeeps(STARTED, events);
    hide *;
    RejectionsAre(c.replies);
    LoadedIs(c, Calls(events), LoadsIn(events), ToAsk(events));
    FailsStep(c, e);
  }

  lemma FailsStep(c: Client, e: Event)
    requires Inv(c) && Enabled(c, e) && !c.failed
    ensures var n := Next(c, e);
            && (n.failed <==> Fails(c, e, c.loadStarted))
            && (n.failed ==>
                  n.replies == [] &&
                  n.settled == c.settled + Rejections(c.replies) + if e.Load? then [Settlement(c.promises, Rejected)] else [])
  {
    if e.OnMessage? && e.message.Reply? {
      ExpectedIsFound(c, e.message);
      FailsOnReply(c, e.message);
      assert c.settled + Rejections(c.replies) + [] == c.settled + Rejections(c.replies);
      hide Receive;
    } else {
      FailsOtherwise(c, e);
      hide Next;
    }
    hide Inv;
    hide Expected;
    hide Found;
    hide Rejections;
  }

  /** Every outstanding promise rejected, oldest call first. */
  function AllRejected(replies: seq<Entry>): (settlements: seq<Settlement>) {
    if replies == [] then []
    else
      AllRejected(replies[..|replies| - 1]) + [Settlement(replies[|replies| - 1].promise, Rejected)]
  }

  lemma {:induction false} RejectionsAre(replies: seq<Entry>)
    ensures Rejections(replies) == AllRejected(replies)
  {
    if replies != [] {
      var front := replies[..|replies| - 1];
      RejectionsAre(front);
      assert Rejections(replies) == Rejections(front) + [Settlement(replies[|replies| - 1].promise, Rejected)];
    }
  }

  lemma FailsOnReply(c: Client, message: Incoming)
    requires !c.failed && message.Reply?
    requires Expected(c, message) <==> Found(c, message)
    ensures var n := Receive(c, message);
            && (n.failed <==> !Expected(c, message))
            && (n.failed ==> n.replies == [] && n.settled == c.settled + Rejections(c.replies))
  {
    hide Expected;
    hide Rejections;
  }

  lemma FailsOtherwise(c: Client, e: Event)
    requires !c.failed && Enabled(c, e) && !(e.OnMessage? && e.message.Reply?)
    ensures var n := Next(c, e);
            && (n.failed <==> Fails(c, e, c.loadStarted))
            && (n.failed ==>
                  n.replies == [] &&
                  n.settled == c.settled + Rejections(c.replies) + if e.Load? then [Settlement(c.promises, Rejected)] else [])
  {
    hide Rejections;
    hide Expected;
    assert c.settled + Rejections(c.replies) + [] == c.settled + Rejections(c.replies);
  }

  /** The look-up of the message handler finds an entry of this number and type. */
  predicate Found(c: Client, message: Incoming)
    requires message.Reply?
  {
    message.sequence.Some? &&
    var k := FindReply(c.replies, message.sequence.value);
    k < |c.replies| && c.replies[k].kind == message.kind
  }

  lemma ExpectedIsFound(c: Client, message: Incoming)
    requires Inv(c) && message.Reply?
    ensures Expected(c, message) <==> Found(c, message)
  {
    if Expected(c, message) {
      var i :| 0 <= i < |c.replies| && Expects(c.replies[i], message);
      OneOfANumber(c, i);
    }
    if Found(c, message) {
      assert Expects(c.replies[FindReply(c.replies, message.sequence.value)], message);
    }
    hide Inv;
  }

  predicate Expects(entry: Entry, message: Incoming)
    requires message.Reply?
  {
    message.sequence == Some(entry.sequence) && message.kind == entry.kind
  }

  /** Some outstanding call has this number and expects this type of reply. */
  ghost predicate Expected(c: Client, message: Incoming)
    requires message.Reply?
  {
    exists i :: 0 <= i < |c.replies| && Expects(c.replies[i], message)
  }

  lemma OneOfANumber(c: Client, i: nat)
    requires Inv(c) && i < |c.replies|
    ensures FindReply(c.replies, c.replies[i].sequence) == i
  {
    var k := FindReply(c.replies, c.replies[i].sequence);
    assert k <= i;
    hide Open;
    hide Settled;
    hide Asked;
  }

  /** An expected reply resolves the promise of the call that expects it, with the value it carries, and
      settles nothing else; every other call stays as it is. */
  lemma ExpectedReplyResolves(events: seq<Event>, i: nat, message: Incoming)
    requires EnabledAll(STARTED, events) && i < |Run(STARTED, events).replies|
    requires message.Reply? && Expects(Run(STARTED, events).replies[i], message)
    ensures var c, n := Run(STARTED, events), Next(Run(STARTED, events), OnMessage(message));
            && n.settled == c.settled + [Settlement(c.replies[i].promise, Resolved(message.value))]
            && n.replies == c.replies[..i] + c.replies[i + 1..]
            && n == c.(settled := n.settled, replies := n.replies)
  {
    StartedOk();
    RunKeeps(STARTED, events);
    OneOfANumber(Run(STARTED, events), i);
    hide Run;
    hide Inv;
  }

  /** The worker's fault: an error, or a message that reports one, is not understood, or is not expected. */
  ghost predicate AtFault(c: Client, e: Event) {
    || e.OnError?
    || (e.OnMessage? && (e.message.FailedMessage? || e.message.Unknown? || (e.message.Reply? && !Expected(c, e.message))))
  }

  /** What the worker and the user are told: an abort at a second load, a destroy request at destruction, each
      only before failure; the failure shown, and the worker terminated, when it is the worker's fault, and a
      worker that has ended terminated without more. */
  lemma ToldExactly(events: seq<Event>, e: Event)
    requires EnabledAll(STARTED, events) && Enabled(Run(STARTED, events), e)
    ensures var c, n := Run(STARTED, events), Next(Run(STARTED, events), e);
            && n.shown == c.shown + (if AtFault(c, e) && !c.failed then [ShownFailed]
                                     else if e == OnMessage(ReadyMessage) then [ShownReady] else [])
            && n.terminations == c.terminations + (if (AtFault(c, e) && !c.failed) || e == OnMessage(Destroyed) then 1 else 0)
            && (e.Load? ==> n.posted == c.posted + if LoadsIn(events) != [] && !c.failed then [AbortRequest] else [])
            && (e.Destroy? ==> n.posted == c.posted + if c.failed then [] else [DestroyRequest])
            && (e.OnMessage? || e.OnError? ==> n.posted == c.posted)
  {
    RunInStep(events);
    var c := Run(STARTED, events);
    StartedOk();
    RunKeeps(STARTED, events);
    assert c.shown + [] == c.shown && c.posted + [] == c.posted;
    hide *;
    LoadedIs(c, Calls(events), LoadsIn(events), ToAsk(events));
    ToldStep(c, e);
  }

  lemma LoadedIs(c: Client, calls: seq<Event>, loads: seq<int>, asked: seq<Posted>)
    requires InStep(c, calls, loads, asked)
    ensures (c.loadStarted <==> loads != []) && c.promises == |calls|
  {
    hide Belongs;
    hide Requests;
  }

  lemma ToldStep(c: Client, e: Event)
    requires Inv(c) && Enabled(c, e)
    ensures var n, fault := Next(c, e), AtFault(c, e) && !c.failed;
            && n.shown == c.shown + (if fault then [ShownFailed] else if e == OnMessage(ReadyMessage) then [ShownReady] else [])
            && n.terminations == c.terminations + (if fault || e == OnMessage(Destroyed) then 1 else 0)
            && (e.Load? ==> n.posted == c.posted + if c.loadStarted && !c.failed then [AbortRequest] else [])
            && (e.Destroy? ==> n.posted == c.posted + if c.failed then [] else [DestroyRequest])
            && (e.OnMessage? || e.OnError? ==> n.posted == c.posted)
  {
    if e.OnMessage? && e.message.Reply? {
      ExpectedIsFound(c, e.message);
      ToldOnReply(c, e.message);
      hide Receive;
    } else {
      ToldOtherwise(c, e);
      hide Next;
    }
    hide Inv;
    hide Expected;
    hide Found;
  }

  lemma ToldOnReply(c: Client, message: Incoming)
    requires message.Reply? && (Expected(c, message) <==> Found(c, message))
    ensures var n, fault := Receive(c, message), !Expected(c, message) && !c.failed;
            && n.shown == c.shown + (if fault then [ShownFailed] else [])
            && n.terminations == c.terminations + (if fault then 1 else 0) && n.posted == c.posted
  {
    hide Expected;
    hide Rejections;
    assert c.shown + [] == c.shown;
  }

  lemma ToldOtherwise(c: Client, e: Event)
    requires Enabled(c, e) && !(e.OnMessage? && e.message.Reply?)
    ensures var n, fault := Next(c, e), AtFault(c, e) && !c.failed;
            && n.shown == c.shown + (if fault then [ShownFailed] else if e == OnMessage(ReadyMessage) then [ShownReady] else [])
            && n.terminations == c.terminations + (if fault || e == OnMessage(Destroyed) then 1 else 0)
            && (e.Load? ==> n.posted == c.posted + if c.loadStarted && !c.failed then [AbortRequest] else [])
            && (e.Destroy? ==> n.posted == c.posted + if c.failed then [] else [DestroyRequest])
            && (e.OnMessage? || e.OnError? ==> n.posted == c.posted)
  {
    hide Rejections;
    hide Expected;
    assert c.shown + [] == c.shown && c.posted + [] == c.posted;
  }

  lemma BelongsMeans(posted: seq<Posted>, calls: seq<Event>, e: Entry)
    requires Belongs(posted, calls, e)
    ensures e.promise < |calls| && AnsweredBy(calls[e.promise], e.kind)
    ensures exists k :: 0 <= k < |posted| && AsksFor(posted[k], calls[e.promise], e.sequence)
  {
  }
}
