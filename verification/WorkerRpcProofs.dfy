/** What holds of the database worker client over every run of calls and messages. */
module WorkerRpcProofs {
  import opened Wrappers
  import opened WorkerRpc

  // ----- accounting for promises -----

  function Promises(replies: seq<Entry>): (promises: seq<Promise>)
    ensures |promises| == |replies|
  {
    seq(|replies|, i requires 0 <= i < |replies| => replies[i].promise)
  }

  function SettledPromises(settled: seq<Settlement>): (promises: seq<Promise>)
    ensures |promises| == |settled|
  {
    seq(|settled|, i requires 0 <= i < |settled| => settled[i].promise)
  }

  /** Promises handed out and not yet settled. */
  function Open(c: Client): multiset<Promise> {
    multiset(Promises(c.replies)) + if c.waiting.Some? then multiset{c.waiting.value.promise} else multiset{}
  }

  function Settled(c: Client): multiset<Promise> {
    multiset(SettledPromises(c.settled))
  }

  function Below(n: nat): multiset<Promise> {
    if n == 0 then multiset{} else Below(n - 1) + multiset{n - 1}
  }

  lemma {:induction false} BelowCounts(n: nat, p: Promise)
    ensures Below(n)[p] == if p < n then 1 else 0
  {
    if n > 0 {
      BelowCounts(n - 1, p);
    }
  }

  // ----- the invariant -----

  function Loads(posted: seq<Posted>): nat {
    if posted == [] then 0 else Loads(posted[..|posted| - 1]) + if posted[|posted| - 1].LoadRequest? then 1 else 0
  }

  function Failures(shown: seq<Shown>): nat {
    if shown == [] then 0 else Failures(shown[..|shown| - 1]) + if shown[|shown| - 1].ShownFailed? then 1 else 0
  }

  /** The sequence numbers posted, in order. */
  function Numbers(posted: seq<Posted>): seq<nat> {
    if posted == [] then []
    else
      Numbers(posted[..|posted| - 1]) +
      match posted[|posted| - 1]
      case LoadRequest(_, sequence) => [sequence]
      case ViewportRequest(_, _, sequence) => [sequence]
      case _ => []
  }

  function UpTo(n: nat): (numbers: seq<nat>)
    ensures |numbers| == n
  {
    seq(n, i => i + 1)
  }

  predicate Asks(message: Posted, e: Entry) {
    match e.kind
    case Ack => message.LoadRequest? && message.sequence == e.sequence
    case Viewport => message.ViewportRequest? && message.sequence == e.sequence
  }

  ghost predicate Asked(posted: seq<Posted>, e: Entry) {
    exists k :: 0 <= k < |posted| && Asks(posted[k], e)
  }

  lemma AskedStays(posted: seq<Posted>, message: Posted, e: Entry)
    ensures Asked(posted, e) || Asks(message, e) ==> Asked(posted + [message], e)
  {
    var longer := posted + [message];
    if Asked(posted, e) {
      var k :| 0 <= k < |posted| && Asks(posted[k], e);
      assert Asks(longer[k], e);
    } else if Asks(message, e) {
      assert Asks(longer[|posted|], e);
    }
  }

  ghost predicate RepliesOk(c: Client) {
    && (forall i :: 0 <= i < |c.replies| ==> c.replies[i].sequence <= c.sequence)
    && (forall i, j :: 0 <= i < j < |c.replies| ==> c.replies[i].sequence < c.replies[j].sequence)
    && (forall i :: 0 <= i < |c.replies| ==> Asked(c.posted, c.replies[i]))
    && (c.failed ==> c.replies == [])
  }

  ghost predicate LogsOk(c: Client) {
    && Numbers(c.posted) == UpTo(c.sequence)
    && (c.waiting.Some? ==> c.loadStarted)
    && Loads(c.posted) + (if c.waiting.Some? then 1 else 0) <= (if c.loadStarted then 1 else 0)
    && Failures(c.shown) <= 1 && (Failures(c.shown) > 0 ==> c.failed)
  }

  ghost predicate Inv(c: Client) {
    && Open(c) + Settled(c) == Below(c.promises)
    && RepliesOk(c)
    && LogsOk(c)
  }

  // ----- every event keeps it -----

  lemma SettleOne(settled: seq<Settlement>, s: Settlement)
    ensures multiset(SettledPromises(settled + [s])) == multiset(SettledPromises(settled)) + multiset{s.promise}
  {
    assert SettledPromises(settled + [s]) == SettledPromises(settled) + [s.promise];
  }

  lemma SettleAll(settled: seq<Settlement>, replies: seq<Entry>)
    ensures multiset(SettledPromises(settled + Rejections(replies)))
            == multiset(SettledPromises(settled)) + multiset(Promises(replies))
  {
    assert SettledPromises(settled + Rejections(replies)) == SettledPromises(settled) + Promises(replies);
  }

  lemma RemoveOne(replies: seq<Entry>, k: nat)
    requires k < |replies|
    ensures multiset(Promises(replies)) == multiset(Promises(replies[..k] + replies[k + 1..])) + multiset{replies[k].promise}
  {
    var ps := Promises(replies);
    assert ps == ps[..k] + [ps[k]] + ps[k + 1..];
    assert Promises(replies[..k] + replies[k + 1..]) == ps[..k] + ps[k + 1..];
  }

  lemma AddOne(replies: seq<Entry>, e: Entry)
    ensures multiset(Promises(replies + [e])) == multiset(Promises(replies)) + multiset{e.promise}
  {
    assert Promises(replies + [e]) == Promises(replies) + [e.promise];
  }

  /** Rejecting the outstanding replies settles exactly those. */
  lemma RejectingConserves(c: Client)
    ensures Open(RejectReplies(c)) + Settled(RejectReplies(c)) == Open(c) + Settled(c)
    ensures RejectReplies(c).promises == c.promises
  {
    SettleAll(c.settled, c.replies);
    assert Promises([]) == [];
  }

  lemma FailConserves(c: Client)
    ensures Open(Fail(c)) + Settled(Fail(c)) == Open(c) + Settled(c) && Fail(c).promises == c.promises
  {
    RejectingConserves(c.(failed := true, ready := true));
    hide RejectReplies;
    hide Promises;
    hide SettledPromises;
  }

  lemma ResolvingConserves(c: Client, k: nat, value: int)
    requires k < |c.replies|
    ensures var n := c.(settled := c.settled + [Settlement(c.replies[k].promise, Resolved(value))],
                        replies := c.replies[..k] + c.replies[k + 1..]);
            Open(n) + Settled(n) == Open(c) + Settled(c)
  {
    RemoveOne(c.replies, k);
    SettleOne(c.settled, Settlement(c.replies[k].promise, Resolved(value)));
    hide Promises;
    hide SettledPromises;
  }

  lemma ReceiveKeeps(c: Client, message: Incoming)
    ensures var n := Receive(c, message);
            Open(n) + Settled(n) == Open(c) + Settled(c) && n.promises == c.promises
  {
    hide Fail;
    hide Open;
    hide Settled;
    hide RejectReplies;
    FailConserves(c);
    if message.Reply? && message.sequence.Some? {
      var k := FindReply(c.replies, message.sequence.value);
      if k < |c.replies| {
        ResolvingConserves(c, k, message.value);
      }
    } else if message.Destroyed? {
      DestroyedConserves(c);
    } else if message.ReadyMessage? {
      ReadyConserves(c);
    }
  }

  lemma ReadyConserves(c: Client)
    ensures var n := Receive(c, ReadyMessage);
            Open(n) == Open(c) && Settled(n) == Settled(c) && n.promises == c.promises
  {
  }

  lemma DestroyedConserves(c: Client)
    ensures var n := Receive(c, Destroyed);
            Open(n) + Settled(n) == Open(c) + Settled(c) && n.promises == c.promises
  {
    RejectingConserves(c.(failed := true));
    hide RejectReplies;
    hide Promises;
    hide SettledPromises;
  }

  lemma StartLoadKeeps(c: Client, requestId: int)
    ensures var n := StartLoad(c, requestId);
            c.waiting.None? || c.loadStarted ==>
              Open(n) + Settled(n) == Open(c) + Settled(c) + multiset{c.promises} && n.promises == c.promises + 1
  {
    if c.loadStarted {
      RejectingConserves(c);
      SettleOne(RejectReplies(c).settled, Settlement(c.promises, Rejected));
      hide Promises;
      hide SettledPromises;
    }
  }

  /** Every event settles, opens or hands on promises without losing or repeating one. */
  lemma PromisesKept(c: Client, e: Event)
    requires Enabled(c, e) && Open(c) + Settled(c) == Below(c.promises) && (c.waiting.Some? ==> c.loadStarted)
    ensures Open(Next(c, e)) + Settled(Next(c, e)) == Below(Next(c, e).promises)
  {
    hide Open;
    hide Settled;
    hide Receive;
    hide Fail;
    hide StartLoad;
    hide Send;
    hide DestroyStep;
    match e
    case OnMessage(message) => { ReceiveKeeps(c, message); }
    case OnError => { FailConserves(c); }
    case Load(requestId) => { StartLoadKeeps(c, requestId); }
    case Resume => { ResumeKeeps(c); }
    case GetViewport(offset, limit) => { ViewportKeeps(c, offset, limit); }
    case Destroy => { DestroyingConserves(c); }
  }

  lemma ViewportKeeps(c: Client, offset: int, limit: int)
    ensures var n := Next(c, GetViewport(offset, limit));
            Open(n) + Settled(n) == Open(c) + Settled(c) + multiset{c.promises} && n.promises == c.promises + 1
  {
    SendKeeps(c.(promises := c.promises + 1), Viewport, ViewportRequest(offset, limit, 0), c.promises);
    assert Open(c.(promises := c.promises + 1)) == Open(c) && Settled(c.(promises := c.promises + 1)) == Settled(c);
    hide Send;
    hide Open;
    hide Settled;
  }

  lemma ResumeKeeps(c: Client)
    requires Enabled(c, Resume)
    ensures var n := Next(c, Resume);
            Open(n) + Settled(n) == Open(c) + Settled(c) && n.promises == c.promises
  {
    var load := c.waiting.value;
    SendKeeps(c.(waiting := None), Ack, LoadRequest(load.requestId, 0), load.promise);
    assert Open(c) == Open(c.(waiting := None)) + multiset{load.promise} && Settled(c) == Settled(c.(waiting := None));
    hide Send;
    hide Open;
    hide Settled;
  }

  lemma DestroyingConserves(c: Client)
    ensures Open(DestroyStep(c)) + Settled(DestroyStep(c)) == Open(c) + Settled(c) && DestroyStep(c).promises == c.promises
  {
    RejectingConserves(c.(posted := c.posted + [DestroyRequest], ready := true, failed := true));
    hide RejectReplies;
    hide Promises;
    hide SettledPromises;
  }

  lemma SendKeeps(c: Client, kind: ReplyType, message: Posted, promise: Promise)
    ensures var n := Send(c, kind, message, promise);
            Open(n) + Settled(n) == Open(c) + Settled(c) + multiset{promise} && n.promises == c.promises
  {
    SettleOne(c.settled, Settlement(promise, Rejected));
    AddOne(c.replies, Entry(c.sequence + 1, kind, promise));
  }

  lemma SendRepliesOk(c: Client, kind: ReplyType, message: Posted, promise: Promise)
    requires RepliesOk(c) && if kind.Ack? then message.LoadRequest? else message.ViewportRequest?
    ensures RepliesOk(Send(c, kind, message, promise))
  {
    if !c.failed {
      var n := Send(c, kind, message, promise);
      forall i | 0 <= i < |n.replies| ensures Asked(n.posted, n.replies[i]) {
        AskedStays(c.posted, WithSequence(message, c.sequence + 1), n.replies[i]);
      }
      hide Asked;
    }
  }

  lemma ReceiveRepliesOk(c: Client, message: Incoming)
    requires RepliesOk(c)
    ensures RepliesOk(Receive(c, message))
  {
    hide Asked;
    if message.Reply? && message.sequence.Some? {
      var k := FindReply(c.replies, message.sequence.value);
      if k < |c.replies| {
        RemovedRepliesOk(c, k, c.settled + [Settlement(c.replies[k].promise, Resolved(message.value))]);
        hide RepliesOk;
      }
    }
  }

  lemma RemovedRepliesOk(c: Client, k: nat, settled: seq<Settlement>)
    requires RepliesOk(c) && k < |c.replies|
    ensures RepliesOk(c.(settled := settled, replies := c.replies[..k] + c.replies[k + 1..]))
    ensures RepliesOk(Fail(c))
  {
    hide Asked;
    var rest := c.replies[..k] + c.replies[k + 1..];
    assert forall i :: 0 <= i < |rest| ==> rest[i] == c.replies[if i < k then i else i + 1];
  }

  lemma RepliesKept(c: Client, e: Event)
    requires Enabled(c, e) && RepliesOk(c)
    ensures RepliesOk(Next(c, e))
  {
    hide Asked;
    match e
    case OnMessage(message) => { ReceiveRepliesOk(c, message); hide Receive; }
    case Resume => {
      SendRepliesOk(c.(waiting := None), Ack, LoadRequest(c.waiting.value.requestId, 0), c.waiting.value.promise);
      hide Send;
    }
    case GetViewport(offset, limit) => {
      SendRepliesOk(c.(promises := c.promises + 1), Viewport, ViewportRequest(offset, limit, 0), c.promises);
      hide Send;
    }
    case _ =>
  }

  lemma PostedSnoc(posted: seq<Posted>, message: Posted)
    ensures Loads(posted + [message]) == Loads(posted) + if message.LoadRequest? then 1 else 0
    ensures Numbers(posted + [message]) == Numbers(posted) +
              match message case LoadRequest(_, s) => [s] case ViewportRequest(_, _, s) => [s] case _ => []
  {
    assert (posted + [message])[..|posted|] == posted;
  }

  lemma ShownSnoc(shown: seq<Shown>, s: Shown)
    ensures Failures(shown + [s]) == Failures(shown) + if s.ShownFailed? then 1 else 0
  {
    assert (shown + [s])[..|shown|] == shown;
  }

  lemma SendLogsOk(c: Client, kind: ReplyType, message: Posted, promise: Promise)
    requires LogsOk(c) && (message.LoadRequest? ==> Loads(c.posted) == 0 && c.waiting.None? && c.loadStarted)
    requires message.LoadRequest? || message.ViewportRequest?
    ensures LogsOk(Send(c, kind, message, promise))
  {
    if !c.failed {
      PostedSnoc(c.posted, WithSequence(message, c.sequence + 1));
      assert UpTo(c.sequence + 1) == UpTo(c.sequence) + [c.sequence + 1];
    }
  }

  lemma FailLogsOk(c: Client)
    requires LogsOk(c)
    ensures LogsOk(Fail(c))
  {
    ShownSnoc(c.shown, ShownFailed);
    hide Loads;
    hide Numbers;
  }

  lemma ReceiveLogsOk(c: Client, message: Incoming)
    requires LogsOk(c)
    ensures LogsOk(Receive(c, message))
  {
    FailLogsOk(c);
    ShownSnoc(c.shown, ShownReady);
    hide Fail;
    hide Failures;
    hide Loads;
    hide Numbers;
  }

  lemma LogsKept(c: Client, e: Event)
    requires Enabled(c, e) && LogsOk(c)
    ensures LogsOk(Next(c, e))
  {
    hide Failures;
    hide Loads;
    hide Numbers;
    hide Receive;
    hide Fail;
    hide Send;
    hide UpTo;
    match e
    case OnMessage(message) => { ReceiveLogsOk(c, message); }
    case OnError => { FailLogsOk(c); }
    case Resume => {
      SendLogsOk(c.(waiting := None), Ack, LoadRequest(c.waiting.value.requestId, 0), c.waiting.value.promise);
    }
    case GetViewport(offset, limit) => {
      SendLogsOk(c.(promises := c.promises + 1), Viewport, ViewportRequest(offset, limit, 0), c.promises);
    }
    case Load(requestId) => {
      PostedSnoc(c.posted, AbortRequest);
      assert c.posted + [] == c.posted;
    }
    case Destroy => { PostedSnoc(c.posted, DestroyRequest); }
  }

  lemma StepKeeps(c: Client, e: Event)
    requires Inv(c) && Enabled(c, e)
    ensures Inv(Next(c, e))
  {
    PromisesKept(c, e);
    RepliesKept(c, e);
    LogsKept(c, e);
    hide *;
  }

  lemma {:induction false} RunKeeps(c: Client, events: seq<Event>)
    requires Inv(c) && EnabledAll(c, events)
    ensures Inv(Run(c, events))
    decreases |events|
  {
    hide Inv;
    hide Next;
    if events != [] {
      StepKeeps(c, events[0]);
      RunKeeps(Next(c, events[0]), events[1..]);
    }
  }

  lemma StartedOk()
    ensures Inv(STARTED)
  {
    assert Promises([]) == [] && SettledPromises([]) == [] && UpTo(0) == [];
    PostedSnoc([], Initialize);
    assert [] + [Initialize] == [Initialize];
  }

  // ----- theorems over every run -----

  /** Every promise ever handed out is either open or settled, and settled at most once. */
  lemma SettledAtMostOnce(events: seq<Event>, p: Promise)
    requires EnabledAll(STARTED, events)
    ensures var c := Run(STARTED, events);
            && Open(c)[p] + Settled(c)[p] == (if p < c.promises then 1 else 0)
            && Settled(c)[p] <= 1
  {
    StartedOk();
    RunKeeps(STARTED, events);
    BelowCounts(Run(STARTED, events).promises, p);
    hide Run;
  }

  /** The event is a reply that answers the request of entry `k`, with its number and its type. */
  ghost predicate Answers(c: Client, e: Event, k: nat) {
    && k < |c.replies| && Asked(c.posted, c.replies[k])
    && e.OnMessage? && e.message.Reply? && e.message.sequence == Some(c.replies[k].sequence) && e.message.kind == c.replies[k].kind
  }

  /** A promise is resolved only by a reply that carries the number of its own request, one that was
      posted, and the type that request asks for; the reply settles nothing else. */
  lemma ResolvedByOwnReply(events: seq<Event>, e: Event, i: nat)
    requires EnabledAll(STARTED, events) && Enabled(Run(STARTED, events), e)
    requires |Run(STARTED, events).settled| <= i < |Next(Run(STARTED, events), e).settled|
    requires Next(Run(STARTED, events), e).settled[i].outcome.Resolved?
    ensures var c, n := Run(STARTED, events), Next(Run(STARTED, events), e);
            && i == |c.settled| && |n.settled| == i + 1
            && exists k: nat :: Answers(c, e, k) && n.settled[i] == Settlement(c.replies[k].promise, Resolved(e.message.value))
  {
    StartedOk();
    RunKeeps(STARTED, events);
    var c := Run(STARTED, events);
    OnlyRepliesResolve(c, e, i);
    var k := FindReply(c.replies, e.message.sequence.value);
    assert RepliesOk(c);
    hide *;
    assert Answers(c, e, k);
  }

  lemma OnlyRepliesResolve(c: Client, e: Event, i: nat)
    requires Enabled(c, e) && |c.settled| <= i < |Next(c, e).settled| && Next(c, e).settled[i].outcome.Resolved?
    ensures e.OnMessage? && e.message.Reply? && e.message.sequence.Some?
    ensures var k := FindReply(c.replies, e.message.sequence.value);
            && k < |c.replies| && c.replies[k].kind == e.message.kind && c.replies[k].sequence == e.message.sequence.value
            && Next(c, e).settled == c.settled + [Settlement(c.replies[k].promise, Resolved(e.message.value))]
  {
  }

  /** The request numbers posted are 1, 2, 3 and so on, and at most one of the requests is a load. */
  lemma AtMostOneLoad(events: seq<Event>)
    requires EnabledAll(STARTED, events)
    ensures Loads(Run(STARTED, events).posted) <= 1
    ensures Numbers(Run(STARTED, events).posted) == UpTo(Run(STARTED, events).sequence)
    ensures Failures(Run(STARTED, events).shown) <= 1
  {
    StartedOk();
    RunKeeps(STARTED, events);
    hide Run;
  }

  /** Failure is final and silent: nothing is posted any more, and no outstanding reply is left. */
  lemma FailureIsFinal(events: seq<Event>, e: Event)
    requires EnabledAll(STARTED, events) && Run(STARTED, events).failed && Enabled(Run(STARTED, events), e)
    ensures var c := Run(STARTED, events);
            && Next(c, e).failed && Next(c, e).posted == c.posted && c.replies == []
            && (c.waiting.None? ==> Open(c) == multiset{})
            && (c.ready && c.waiting.Some? ==> Enabled(c, Resume) && Open(Next(c, Resume)) == multiset{})
  {
    StartedOk();
    RunKeeps(STARTED, events);
    FailedIsQuiet(Run(STARTED, events), e);
    hide *;
  }

  lemma FailedIsQuiet(c: Client, e: Event)
    requires c.failed && Enabled(c, e) && Inv(c)
    ensures Next(c, e).failed && Next(c, e).posted == c.posted && c.replies == []
    ensures c.waiting.None? ==> Open(c) == multiset{}
    ensures c.ready && c.waiting.Some? ==> Enabled(c, Resume) && Open(Next(c, Resume)) == multiset{}
  {
    hide Numbers;
    hide Loads;
    hide Failures;
    hide SettledPromises;
    hide Asked;
    hide FindReply;
    hide Rejections;
    assert c.posted + [] == c.posted;
    assert Promises([]) == [];
  }

  /** A worker that reports itself destroyed unasked leaves the promise of a waiting load open, and
      destroying the client does not help. */
  lemma WaitingLoadLeftOpen()
    ensures var events := [Load(0), OnMessage(Destroyed), Destroy];
            && EnabledAll(STARTED, events)
            && var c := Run(STARTED, events);
               c.failed && !Enabled(c, Resume) && Open(c)[0] == 1 && Settled(c)[0] == 0
  {
    var loading := Next(STARTED, Load(0));
    var lost := Next(loading, OnMessage(Destroyed));
    assert lost.waiting == Some(Waiting(0, 0)) && lost.replies == [] && lost.settled == [];
    assert Next(lost, Destroy) == lost;
    var events := [Load(0), OnMessage(Destroyed), Destroy];
    assert events[1..][1..][1..] == [];
    assert events[1..] == [OnMessage(Destroyed), Destroy] && events[1..][1..] == [Destroy];
    assert EnabledAll(lost, [Destroy]) && Run(lost, [Destroy]) == lost;
  }
}
