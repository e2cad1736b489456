/** What the parser accepts: exactly the framed streams within budget, however the transport
    cuts them into chunks; how much it retains; and which of its throws are final. */
module ResultStreamProofs {
  import opened Wrappers
  import opened Wire
  import opened ResultStream

  // ----- the invariant of a parser that has not thrown -----

  /** No complete frame is left at the front of the buffer. */
  ghost predicate Waiting(maximum: nat, buffer: Bytes) {
    |buffer| >= HEADER_BYTES ==>
      && FrameKind(buffer) == ARROW_FRAME
      && |buffer| - HEADER_BYTES < PayloadLength(buffer) <= maximum
  }

  /** `p` has consumed the bytes `seen` and handed out the payloads `out`. */
  ghost predicate Consumed(maximum: nat, seen: Bytes, out: seq<Bytes>, p: Parser) {
    && WellFormed(out, maximum)
    && p.arrowBytes == |Concat(out)|
    && (!p.magicRead ==> !p.complete && out == [] && seen == p.buffer && |seen| < |MAGIC|)
    && (p.magicRead && !p.complete ==> seen == MAGIC + (ArrowFrames(out) + p.buffer) && Waiting(maximum, p.buffer))
    && (p.magicRead && p.complete ==> p.buffer == [] && seen == EncodeStream(out))
  }

  // ----- soundness: what is accepted was a stream -----

  lemma FramesCons(payload: Bytes, payloads: seq<Bytes>, rest: Bytes)
    ensures ArrowFrames([payload] + payloads) + rest == Frame(ARROW_FRAME, payload) + (ArrowFrames(payloads) + rest)
    ensures Tail([payload] + payloads) == Frame(ARROW_FRAME, payload) + Tail(payloads)
    ensures |Concat([payload] + payloads)| == |payload| + |Concat(payloads)|
  {
    assert ([payload] + payloads)[1..] == payloads;
  }

  /** What the frame loop makes of the buffer of `p`. */
  ghost predicate Drained(maximum: nat, p: Parser, chunks: seq<Bytes>, next: Parser) {
    && next.magicRead
    && (forall i :: 0 <= i < |chunks| ==> chunks[i] != [])
    && next.arrowBytes == p.arrowBytes + |Concat(chunks)| <= maximum
    && (!next.complete ==> ArrowFrames(chunks) + next.buffer == p.buffer && Waiting(maximum, next.buffer))
    && (next.complete ==> next.buffer == [] && Tail(chunks) == p.buffer)
  }

  lemma DrainedNothing(maximum: nat, p: Parser)
    requires p.magicRead && !p.complete && p.arrowBytes <= maximum && Waiting(maximum, p.buffer)
    ensures Drained(maximum, p, [], p)
  {
    NoFrames(p.buffer);
  }

  lemma DrainedCompletion(maximum: nat, p: Parser)
    requires p.magicRead && !p.complete && p.arrowBytes <= maximum
    requires |p.buffer| == HEADER_BYTES && FrameKind(p.buffer) == COMPLETE_FRAME && PayloadLength(p.buffer) == 0
    ensures Drained(maximum, p, [], p.(buffer := [], complete := true))
  {
    hide PayloadLength;
    hide FrameKind;
    RebuildFrame(p.buffer);
    assert p.buffer[HEADER_BYTES..] == [] && p.buffer[HEADER_BYTES..HEADER_BYTES] == [];
    TailStart([]);
    hide Frame;
    hide Tail;
    assert p.buffer == COMPLETION + [];
  }

  lemma DrainedCons(maximum: nat, p: Parser, payload: Bytes, rest: Parser, chunks: seq<Bytes>, next: Parser)
    requires payload != [] && rest.arrowBytes == p.arrowBytes + |payload|
    requires p.buffer == Frame(ARROW_FRAME, payload) + rest.buffer
    requires Drained(maximum, rest, chunks, next)
    ensures Drained(maximum, p, [payload] + chunks, next)
  {
    FramesCons(payload, chunks, next.buffer);
  }

  lemma {:induction false} DrainSound(maximum: nat, p: Parser)
    requires p.magicRead && !p.complete && p.arrowBytes <= maximum
    requires DrainStep(maximum, p).outcome.Parsed?
    ensures var d := DrainStep(maximum, p);
            Drained(maximum, p, d.outcome.chunks, d.next)
    decreases |p.buffer|
  {
    hide PayloadLength;
    hide FrameKind;
    hide Drained;
    hide Frame;
    hide ArrowFrames;
    hide Waiting;
    if |p.buffer| < HEADER_BYTES {
      DrainedNothing(maximum, p);
    } else if FrameKind(p.buffer) == COMPLETE_FRAME {
      DrainedCompletion(maximum, p);
    } else if PayloadLength(p.buffer) > |p.buffer| - HEADER_BYTES {
      DrainedNothing(maximum, p);
    } else {
      var length := PayloadLength(p.buffer);
      RebuildFrame(p.buffer);
      var payload := p.buffer[HEADER_BYTES..HEADER_BYTES + length];
      var rest := p.(buffer := p.buffer[HEADER_BYTES + length..], arrowBytes := p.arrowBytes + length);
      DrainSound(maximum, rest);
      var d := DrainStep(maximum, rest);
      DrainedCons(maximum, p, payload, rest, d.outcome.chunks, d.next);
    }
  }

  /** Folding a drained buffer into the invariant. */
  lemma ConsumedAfterDrain(maximum: nat, seen: Bytes, out: seq<Bytes>, ready: Parser, chunks: seq<Bytes>, next: Parser)
    requires WellFormed(out, maximum) && ready.arrowBytes == |Concat(out)|
    requires seen == MAGIC + (ArrowFrames(out) + ready.buffer)
    requires Drained(maximum, ready, chunks, next)
    ensures Consumed(maximum, seen, out + chunks, next)
  {
    hide MAGIC;
    hide Waiting;
    hide ArrowFrames;
    hide Tail;
    hide EncodeStream;
    hide Concat;
    ConcatAppend(out, chunks);
    StreamIsMagicThenTail(out + chunks);
    TailAppend(out, chunks);
    FramesAppendRest(out, chunks, next.buffer);
  }

  lemma PushSound(maximum: nat, seen: Bytes, out: seq<Bytes>, p: Parser, chunk: Bytes)
    requires Consumed(maximum, seen, out, p)
    requires PushStep(maximum, p, chunk).outcome.Parsed?
    ensures var step := PushStep(maximum, p, chunk);
            Consumed(maximum, seen + chunk, out + step.outcome.chunks, step.next)
  {
    hide DrainStep;
    hide MAGIC;
    hide Waiting;
    hide Tail;
    hide EncodeStream;
    hide Concat;
    hide ArrowFrames;
    hide COMPLETION;
    var step := PushStep(maximum, p, chunk);
    var more := step.outcome.chunks;
    if p.complete {
      CompletePush(maximum, p);
      assert seen + chunk == seen && out + [] == out;
    } else if p.magicRead || |p.buffer + chunk| >= |MAGIC| {
      var filled := p.(buffer := p.buffer + chunk);
      var ready := if p.magicRead then filled else filled.(buffer := filled.buffer[|MAGIC|..], magicRead := true);
      if p.magicRead {
        Assoc(MAGIC, ArrowFrames(out) + p.buffer, chunk);
        Assoc(ArrowFrames(out), p.buffer, chunk);
      } else {
        NoFrames(ready.buffer);
      }
      assert seen + chunk == MAGIC + (ArrowFrames(out) + ready.buffer);
      hide PushStep;
      DrainSound(maximum, ready);
      ConsumedAfterDrain(maximum, seen + chunk, out, ready, more, step.next);
    } else {
      assert out + [] == out;
    }
  }

  lemma CompletePush(maximum: nat, p: Parser)
    requires p.complete && p.magicRead && p.buffer == []
    ensures PushStep(maximum, p, []) == Step(p, Parsed([]))
  {
    assert p.buffer + [] == [];
  }

  lemma {:induction false} FeedSound(maximum: nat, seen: Bytes, out: seq<Bytes>, p: Parser, transport: seq<Bytes>)
    requires Consumed(maximum, seen, out, p)
    requires Feed(maximum, p, transport).error.None?
    ensures var fed := Feed(maximum, p, transport);
            Consumed(maximum, seen + Concat(transport), out + fed.chunks, fed.next)
    decreases |transport|
  {
    hide PushStep;
    hide Consumed;
    if transport == [] {
      assert seen + [] == seen && out + [] == out;
    } else {
      PushSound(maximum, seen, out, p, transport[0]);
      var step := PushStep(maximum, p, transport[0]);
      FeedSound(maximum, seen + transport[0], out + step.outcome.chunks, step.next, transport[1..]);
      var rest := Feed(maximum, step.next, transport[1..]);
      assert seen + transport[0] + Concat(transport[1..]) == seen + Concat(transport);
      assert out + step.outcome.chunks + rest.chunks == out + (step.outcome.chunks + rest.chunks);
    }
  }

  // ----- completeness: no prefix of a stream is ever rejected -----

  lemma {:induction false} DrainAccepts(maximum: nat, p: Parser, payloads: seq<Bytes>, rest: Bytes)
    requires maximum < LENGTH_LIMIT && !p.complete
    requires forall i :: 0 <= i < |payloads| ==> payloads[i] != []
    requires p.arrowBytes + |Concat(payloads)| <= maximum
    requires p.buffer + rest == Tail(payloads)
    ensures var d := DrainStep(maximum, p);
            && d.outcome.Parsed?
            && (rest == [] ==> d.next.complete && d.next.buffer == [])
    decreases |p.buffer|
  {
    hide Tail;
    hide Frame;
    hide PayloadLength;
    TailStart(payloads);
    if |p.buffer| >= HEADER_BYTES {
      HeaderOfPrefix(p.buffer, rest);
      if payloads == [] {
        ReadHeader(COMPLETE_FRAME, [], []);
        assert COMPLETION + [] == COMPLETION;
      } else {
        ReadHeader(ARROW_FRAME, payloads[0], Tail(payloads[1..]));
        var length := |payloads[0]|;
        if length <= |p.buffer| - HEADER_BYTES {
          var next := p.(buffer := p.buffer[HEADER_BYTES + length..], arrowBytes := p.arrowBytes + length);
          assert next.buffer + rest == (p.buffer + rest)[HEADER_BYTES + length..];
          DrainAccepts(maximum, next, payloads[1..], rest);
        }
      }
    }
  }

  lemma FirstByte(payload: Bytes, behind: Bytes)
    ensures (Frame(ARROW_FRAME, payload) + behind)[0] == ARROW_FRAME
  {
  }

  /** Payloads already handed out are a prefix of whatever the stream turns out to carry. */
  lemma {:induction false} HandedOutIsPrefix(out: seq<Bytes>, rest: Bytes, payloads: seq<Bytes>)
    requires |Concat(out)| < LENGTH_LIMIT && |Concat(payloads)| < LENGTH_LIMIT
    requires ArrowFrames(out) + rest == Tail(payloads)
    ensures |out| <= |payloads| && out == payloads[..|out|] && rest == Tail(payloads[|out|..])
  {
    hide Tail;
    hide PayloadLength;
    hide FrameKind;
    if out != [] {
      TailStart(payloads);
      var behind := ArrowFrames(out[1..]) + rest;
      Assoc(Frame(ARROW_FRAME, out[0]), ArrowFrames(out[1..]), rest);
      FirstByte(out[0], behind);
      hide Frame;
      ReadHeader(ARROW_FRAME, out[0], behind);
      ReadHeader(ARROW_FRAME, payloads[0], Tail(payloads[1..]));
      HandedOutIsPrefix(out[1..], rest, payloads[1..]);
      assert out == [out[0]] + out[1..] && payloads == [payloads[0]] + payloads[1..];
    }
  }

  /** 23 + 9 + 10 * maximum bounds every legal stream, so the overflow check rejects none. */
  lemma StreamLength(payloads: seq<Bytes>, maximum: nat)
    requires WellFormed(payloads, maximum)
    ensures |EncodeStream(payloads)| <= ProtocolBytes(maximum)
  {
    FramesLength(payloads);
    NonEmptyCount(payloads);
  }

  /** The frame loop inside a push, once the bytes behind the magic are aligned with the stream. */
  lemma ReadyAccepts(maximum: nat, out: seq<Bytes>, ready: Parser, rest: Bytes, payloads: seq<Bytes>)
    requires ValidMaximum(maximum) && WellFormed(out, maximum) && WellFormed(payloads, maximum)
    requires ready.magicRead && !ready.complete && ready.arrowBytes == |Concat(out)|
    requires ArrowFrames(out) + (ready.buffer + rest) == Tail(payloads)
    ensures var d := DrainStep(maximum, ready);
            d.outcome.Parsed? && (rest == [] ==> FinishSucceeds(d.next))
  {
    hide DrainStep;
    hide ArrowFrames;
    hide Tail;
    HandedOutIsPrefix(out, ready.buffer + rest, payloads);
    var remaining := payloads[|out|..];
    assert payloads == out + remaining;
    ConcatAppend(out, remaining);
    DrainMagicKept(maximum, ready);
    DrainAccepts(maximum, ready, remaining, rest);
  }

  lemma SplitMagic(payloads: seq<Bytes>, behind: Bytes)
    requires MAGIC + behind == EncodeStream(payloads)
    ensures behind == Tail(payloads)
  {
    hide MAGIC;
    StreamIsMagicThenTail(payloads);
    DropCommonPrefix(MAGIC, behind, Tail(payloads));
    DropCommonPrefix(MAGIC, Tail(payloads), behind);
  }

  lemma PushAccepts(maximum: nat, seen: Bytes, out: seq<Bytes>, p: Parser, chunk: Bytes, rest: Bytes, payloads: seq<Bytes>)
    requires ValidMaximum(maximum) && Consumed(maximum, seen, out, p)
    requires WellFormed(payloads, maximum) && seen + chunk + rest == EncodeStream(payloads)
    ensures var step := PushStep(maximum, p, chunk);
            step.outcome.Parsed? && (rest == [] ==> FinishSucceeds(step.next))
  {
    hide DrainStep;
    hide MAGIC;
    hide Waiting;
    hide Concat;
    hide ArrowFrames;
    hide Tail;
    hide COMPLETION;
    StreamLength(payloads, maximum);
    if p.complete {
      assert seen <= EncodeStream(payloads);
      SmallIsFramable(out);
      SmallIsFramable(payloads);
      StreamsArePrefixFree(out, payloads);
      CompletePush(maximum, p);
    } else if p.magicRead {
      var ready := p.(buffer := p.buffer + chunk);
      hide EncodeStream;
      assert seen + chunk + rest == MAGIC + (ArrowFrames(out) + (ready.buffer + rest));
      SplitMagic(payloads, ArrowFrames(out) + (ready.buffer + rest));
      ReadyAccepts(maximum, out, ready, rest, payloads);
    } else if |seen + chunk| >= |MAGIC| {
      PushAcceptsMagic(maximum, p, chunk, rest, payloads);
    } else {
      assert rest != [];
    }
  }

  lemma NoFrames(rest: Bytes)
    ensures ArrowFrames([]) + rest == rest
  {
  }

  lemma PushAcceptsMagic(maximum: nat, p: Parser, chunk: Bytes, rest: Bytes, payloads: seq<Bytes>)
    requires ValidMaximum(maximum) && !p.magicRead && !p.complete && p.arrowBytes == |Concat([])| && |p.buffer + chunk| >= |MAGIC|
    requires WellFormed(payloads, maximum) && p.buffer + chunk + rest == EncodeStream(payloads)
    ensures var step := PushStep(maximum, p, chunk);
            step.outcome.Parsed? && (rest == [] ==> FinishSucceeds(step.next))
  {
    hide DrainStep;
    hide MAGIC;
    hide EncodeStream;
    hide ArrowFrames;
    hide Tail;
    StreamLength(payloads, maximum);
    StreamIsMagicThenTail(payloads);
    var filled := p.buffer + chunk;
    SplitPrefix(MAGIC, filled, rest);
    var ready := p.(buffer := filled[|MAGIC|..], magicRead := true);
    assert Concat([]) == [];
    NoFrames(ready.buffer + rest);
    ReadyAccepts(maximum, [], ready, rest, payloads);
  }

  lemma {:induction false} DrainMagicKept(maximum: nat, p: Parser)
    requires p.magicRead
    ensures DrainStep(maximum, p).next.magicRead
    decreases |p.buffer|
  {
    if |p.buffer| >= HEADER_BYTES && FrameKind(p.buffer) == ARROW_FRAME
       && 0 < PayloadLength(p.buffer) <= |p.buffer| - HEADER_BYTES {
      var length := PayloadLength(p.buffer);
      DrainMagicKept(maximum, p.(buffer := p.buffer[HEADER_BYTES + length..], arrowBytes := p.arrowBytes + length));
    }
  }

  lemma {:induction false} FeedAccepts(maximum: nat, seen: Bytes, out: seq<Bytes>, p: Parser, transport: seq<Bytes>,
                                       payloads: seq<Bytes>)
    requires ValidMaximum(maximum) && Consumed(maximum, seen, out, p)
    requires WellFormed(payloads, maximum) && seen + Concat(transport) == EncodeStream(payloads)
    ensures Feed(maximum, p, transport).error.None?
    decreases |transport|
  {
    hide PushStep;
    hide Consumed;
    hide EncodeStream;
    hide WellFormed;
    if transport != [] {
      var rest := Concat(transport[1..]);
      Assoc(seen, transport[0], rest);
      PushAccepts(maximum, seen, out, p, transport[0], rest, payloads);
      PushSound(maximum, seen, out, p, transport[0]);
      var step := PushStep(maximum, p, transport[0]);
      FeedAccepts(maximum, seen + transport[0], out + step.outcome.chunks, step.next, transport[1..], payloads);
    }
  }

  lemma InitialConsumed(maximum: nat)
    ensures Consumed(maximum, [], [], INITIAL)
  {
  }

  /** Every split of a legal stream is accepted and yields exactly its payloads. */
  lemma EverySplitAccepted(maximum: nat, transport: seq<Bytes>, payloads: seq<Bytes>)
    requires ValidMaximum(maximum) && WellFormed(payloads, maximum)
    requires Concat(transport) == EncodeStream(payloads)
    ensures Accepts(maximum, transport) && Feed(maximum, INITIAL, transport).chunks == payloads
  {
    InitialConsumed(maximum);
    assert [] + Concat(transport) == Concat(transport);
    FeedAccepts(maximum, [], [], INITIAL, transport, payloads);
    FeedSound(maximum, [], [], INITIAL, transport);
    var fed := Feed(maximum, INITIAL, transport);
    assert [] + fed.chunks == fed.chunks;
    // One more, empty, push is a no-op exactly when the whole stream has been consumed.
    assert EncodeStream(payloads) + [] + [] == EncodeStream(payloads);
    PushAccepts(maximum, EncodeStream(payloads), fed.chunks, fed.next, [], [], payloads);
    EmptyPushIsNoOp(maximum, EncodeStream(payloads), fed.chunks, fed.next);
    SmallIsFramable(fed.chunks);
    SmallIsFramable(payloads);
    StreamsArePrefixFree(fed.chunks, payloads);
  }

  /** Pushing an empty chunk changes nothing. */
  lemma EmptyPushIsNoOp(maximum: nat, seen: Bytes, out: seq<Bytes>, p: Parser)
    requires ValidMaximum(maximum) && Consumed(maximum, seen, out, p)
    ensures PushStep(maximum, p, []) == Step(p, Parsed([]))
  {
    hide WellFormed;
    hide EncodeStream;
    hide ArrowFrames;
    hide Concat;
    RetainedBytes(maximum, seen, out, p);
    assert p.(buffer := p.buffer + []) == p by {
      assert p.buffer + [] == p.buffer;
    }
  }

  /** Chunking independence: all pushes and finish succeed exactly when the delivered bytes are
      a framed stream within budget, whatever the chunk boundaries; the payloads handed out are
      then the stream's own, and no other payload list encodes those bytes. */
  lemma ChunkingIndependence(maximum: nat, transport: seq<Bytes>)
    requires ValidMaximum(maximum)
    ensures Accepts(maximum, transport) <==>
            exists payloads :: WellFormed(payloads, maximum) && Concat(transport) == EncodeStream(payloads)
    ensures forall payloads :: WellFormed(payloads, maximum) && Concat(transport) == EncodeStream(payloads)
                               ==> Feed(maximum, INITIAL, transport).chunks == payloads
  {
    forall payloads | WellFormed(payloads, maximum) && Concat(transport) == EncodeStream(payloads)
      ensures Accepts(maximum, transport) && Feed(maximum, INITIAL, transport).chunks == payloads
    {
      EverySplitAccepted(maximum, transport, payloads);
    }
    if Accepts(maximum, transport) {
      AcceptedIsStream(maximum, transport);
    }
  }

  lemma AcceptedIsStream(maximum: nat, transport: seq<Bytes>)
    requires Accepts(maximum, transport)
    ensures var payloads := Feed(maximum, INITIAL, transport).chunks;
            WellFormed(payloads, maximum) && Concat(transport) == EncodeStream(payloads)
  {
    InitialConsumed(maximum);
    FeedSound(maximum, [], [], INITIAL, transport);
    var fed := Feed(maximum, INITIAL, transport);
    assert [] + fed.chunks == fed.chunks && [] + Concat(transport) == Concat(transport);
  }

  // ----- buffering -----

  /** After a push that did not throw, less than the magic or less than one maximal frame is kept. */
  lemma RetainedBytes(maximum: nat, seen: Bytes, out: seq<Bytes>, p: Parser)
    requires ValidMaximum(maximum) && Consumed(maximum, seen, out, p)
    ensures |p.buffer| < if |MAGIC| > HEADER_BYTES + maximum then |MAGIC| else HEADER_BYTES + maximum
  {
  }

  function OneByteFrames(n: nat): (payloads: seq<Bytes>)
    ensures |payloads| == n
    ensures forall i :: 0 <= i < n ==> payloads[i] == [0]
  {
    if n == 0 then [] else [[0]] + OneByteFrames(n - 1)
  }

  lemma {:induction false} OneByteFramesTotal(n: nat)
    ensures |Concat(OneByteFrames(n))| == n
  {
    if n > 0 {
      OneByteFramesTotal(n - 1);
      assert OneByteFrames(n)[1..] == OneByteFrames(n - 1);
    }
  }

  /** The buffer ceiling is exact: it bounds every legal stream and one legal stream attains it. */
  lemma CeilingIsExact(maximum: nat)
    ensures forall payloads :: WellFormed(payloads, maximum) ==> |EncodeStream(payloads)| <= ProtocolBytes(maximum)
    ensures exists payloads :: WellFormed(payloads, maximum) && |EncodeStream(payloads)| == ProtocolBytes(maximum)
  {
    forall payloads | WellFormed(payloads, maximum)
      ensures |EncodeStream(payloads)| <= ProtocolBytes(maximum)
    {
      StreamLength(payloads, maximum);
    }
    OneByteFramesTotal(maximum);
    FramesLength(OneByteFrames(maximum));
    assert WellFormed(OneByteFrames(maximum), maximum);
  }

  // ----- which throws are final -----

  predicate Final(cause: Cause) {
    cause.BadMagic? || cause.BadFrame? || cause.OverBudget?
  }

  /** The bad bytes are still at the front of the buffer, so every later push meets them again. */
  ghost predicate Doomed(maximum: nat, p: Parser) {
    && !p.complete
    && if !p.magicRead then |p.buffer| >= |MAGIC| && p.buffer[..|MAGIC|] != MAGIC
       else
         && |p.buffer| >= HEADER_BYTES
         && var kind, length := FrameKind(p.buffer), PayloadLength(p.buffer);
            || (kind == COMPLETE_FRAME && length != 0)
            || (kind != COMPLETE_FRAME && (kind != ARROW_FRAME || length == 0 || length > maximum))
            || (kind == ARROW_FRAME && 0 < length <= |p.buffer| - HEADER_BYTES && length <= maximum < p.arrowBytes)
  }

  lemma {:induction false} DrainThrowsDoomed(maximum: nat, p: Parser, cause: Cause)
    requires p.magicRead && !p.complete && p.arrowBytes <= maximum
    requires DrainStep(maximum, p).outcome == Threw(cause) && Final(cause)
    ensures Doomed(maximum, DrainStep(maximum, p).next)
    decreases |p.buffer|
  {
    hide PayloadLength;
    hide MAGIC;
    var kind, length := FrameKind(p.buffer), PayloadLength(p.buffer);
    if kind == ARROW_FRAME && 0 < length <= maximum && p.arrowBytes + length <= maximum {
      DrainThrowsDoomed(maximum, p.(buffer := p.buffer[HEADER_BYTES + length..], arrowBytes := p.arrowBytes + length), cause);
    }
  }

  lemma DoomedStays(maximum: nat, p: Parser, chunk: Bytes)
    requires Doomed(maximum, p)
    ensures var step := PushStep(maximum, p, chunk);
            step.outcome.Threw? && Doomed(maximum, step.next)
  {
    if p.magicRead {
      HeaderOfPrefix(p.buffer, chunk);
    } else if |p.buffer| + |chunk| <= ProtocolBytes(maximum) {
      assert (p.buffer + chunk)[..|MAGIC|] == p.buffer[..|MAGIC|];
    }
  }

  lemma PushThrowsDoomed(maximum: nat, seen: Bytes, out: seq<Bytes>, p: Parser, chunk: Bytes)
    requires Consumed(maximum, seen, out, p)
    requires PushStep(maximum, p, chunk).outcome.Threw? && Final(PushStep(maximum, p, chunk).outcome.cause)
    ensures Doomed(maximum, PushStep(maximum, p, chunk).next)
  {
    hide DrainStep;
    hide MAGIC;
    hide ArrowFrames;
    hide EncodeStream;
    hide PayloadLength;
    var step := PushStep(maximum, p, chunk);
    if p.magicRead {
      var ready := p.(buffer := p.buffer + chunk);
      if p.complete {
        assert chunk == [] && p.buffer + chunk == [];
        CompletePush(maximum, p);
      } else {
        DrainThrowsDoomed(maximum, ready, step.outcome.cause);
      }
    } else if (p.buffer + chunk)[..|MAGIC|] == MAGIC {
      DrainThrowsDoomed(maximum, p.(buffer := (p.buffer + chunk)[|MAGIC|..], magicRead := true), step.outcome.cause);
    }
  }

  /** A throw for bad magic, a bad frame or an exceeded budget can never be recovered from:
      every later push throws again and finish never succeeds. */
  lemma FinalThrow(maximum: nat, seen: Bytes, out: seq<Bytes>, p: Parser, chunk: Bytes, later: seq<Bytes>)
    requires Consumed(maximum, seen, out, p)
    requires PushStep(maximum, p, chunk).outcome.Threw? && Final(PushStep(maximum, p, chunk).outcome.cause)
    ensures var after := PushStep(maximum, p, chunk).next;
            && !FinishSucceeds(after)
            && forall i :: 0 <= i < |later| ==> PushStep(maximum, Ignoring(maximum, after, later[..i]), later[i]).outcome.Threw?
    ensures !FinishSucceeds(Ignoring(maximum, PushStep(maximum, p, chunk).next, later))
  {
    PushThrowsDoomed(maximum, seen, out, p, chunk);
    hide PushStep;
    var step := PushStep(maximum, p, chunk);
    IgnoringStaysDoomed(maximum, step.next, later);
    forall i | 0 <= i < |later|
      ensures PushStep(maximum, Ignoring(maximum, step.next, later[..i]), later[i]).outcome.Threw?
    {
      IgnoringStaysDoomed(maximum, step.next, later[..i]);
      DoomedStays(maximum, Ignoring(maximum, step.next, later[..i]), later[i]);
    }
  }

  /** The state after further pushes whose throws a careless caller ignores. */
  function Ignoring(maximum: nat, p: Parser, transport: seq<Bytes>): Parser
    decreases |transport|
  {
    if transport == [] then p else Ignoring(maximum, PushStep(maximum, p, transport[0]).next, transport[1..])
  }

  lemma {:induction false} IgnoringStaysDoomed(maximum: nat, p: Parser, transport: seq<Bytes>)
    requires Doomed(maximum, p)
    ensures Doomed(maximum, Ignoring(maximum, p, transport))
    decreases |transport|
  {
    if transport != [] {
      DoomedStays(maximum, p, transport[0]);
      IgnoringStaysDoomed(maximum, PushStep(maximum, p, transport[0]).next, transport[1..]);
    }
  }

  /** The other three throws are not sticky: each has a run where the parser throws and a later
      finish, after at most one more push, succeeds all the same. */
  ghost predicate Survives(maximum: nat, p: Parser, cause: Cause) {
    exists chunk, more ::
      && PushStep(maximum, p, chunk).outcome == Threw(cause)
      && FinishSucceeds(Ignoring(maximum, PushStep(maximum, p, chunk).next, more))
  }

  lemma OtherThrowsAreNotFinal(maximum: nat)
    requires ValidMaximum(maximum)
    ensures Survives(maximum, INITIAL, Overflow)
    ensures Survives(maximum, INITIAL, Trailing)
    ensures Survives(maximum, Feed(maximum, INITIAL, [EncodeStream([])]).next, AfterComplete)
  {
    OverflowSurvives(maximum);
    TrailingSurvives(maximum);
    AfterCompleteSurvives(maximum);
  }

  lemma OverflowSurvives(maximum: nat)
    requires ValidMaximum(maximum)
    ensures Survives(maximum, INITIAL, Overflow)
  {
    hide MAGIC;
    var long := seq(ProtocolBytes(maximum) + 1, _ => 0 as byte);
    assert PushStep(maximum, INITIAL, long) == Step(INITIAL, Threw(Overflow));
    EmptyStreamAccepted(maximum);
    IgnoringOne(maximum, INITIAL, EncodeStream([]));
  }

  lemma TrailingSurvives(maximum: nat)
    requires ValidMaximum(maximum)
    ensures Survives(maximum, INITIAL, Trailing)
  {
    hide PushStep;
    DoubledCompletion(maximum);
    IgnoringOne(maximum, PushStep(maximum, INITIAL, EncodeStream([]) + COMPLETION).next, []);
  }

  lemma AfterCompleteSurvives(maximum: nat)
    requires ValidMaximum(maximum)
    ensures Survives(maximum, Feed(maximum, INITIAL, [EncodeStream([])]).next, AfterComplete)
  {
    hide DrainStep;
    EmptyStreamAccepted(maximum);
    var done := Feed(maximum, INITIAL, [EncodeStream([])]).next;
    assert PushStep(maximum, done, [0]) == Step(done, Threw(AfterComplete));
    assert Ignoring(maximum, done, []) == done;
  }

  lemma EmptyStreamAccepted(maximum: nat)
    requires ValidMaximum(maximum)
    ensures Accepts(maximum, [EncodeStream([])])
    ensures Feed(maximum, INITIAL, [EncodeStream([])]).next == PushStep(maximum, INITIAL, EncodeStream([])).next
  {
    hide PushStep;
    hide EncodeStream;
    var whole := EncodeStream([]);
    assert [whole][1..] == [] && Concat([whole]) == whole + Concat([]) == whole;
    EverySplitAccepted(maximum, [whole], []);
  }

  lemma IgnoringOne(maximum: nat, p: Parser, chunk: Bytes)
    ensures Ignoring(maximum, p, [chunk]) == PushStep(maximum, p, chunk).next
  {
    assert [chunk][1..] == [];
  }

  lemma DrainDoubled(maximum: nat, p: Parser)
    requires p.buffer == COMPLETION + COMPLETION
    ensures DrainStep(maximum, p) == Step(p.(buffer := COMPLETION), Threw(Trailing))
    ensures DrainStep(maximum, p.(buffer := COMPLETION)) == Step(p.(buffer := [], complete := true), Parsed([]))
  {
    hide Frame;
    ReadHeader(COMPLETE_FRAME, [], COMPLETION);
    ReadHeader(COMPLETE_FRAME, [], []);
    hide PayloadLength;
    hide FrameKind;
    assert COMPLETION + [] == COMPLETION;
  }

  lemma DoubledCompletion(maximum: nat)
    requires ValidMaximum(maximum)
    ensures var step := PushStep(maximum, INITIAL, EncodeStream([]) + COMPLETION);
            && step.outcome == Threw(Trailing)
            && FinishSucceeds(PushStep(maximum, step.next, []).next)
  {
    hide MAGIC;
    hide DrainStep;
    StreamIsMagicThenTail([]);
    TailStart([]);
    hide EncodeStream;
    hide Tail;
    hide Frame;
    var twice := COMPLETION + COMPLETION;
    Assoc(MAGIC, COMPLETION, COMPLETION);
    assert [] + (MAGIC + twice) == MAGIC + twice;
    assert (MAGIC + twice)[..|MAGIC|] == MAGIC && (MAGIC + twice)[|MAGIC|..] == twice;
    DrainDoubled(maximum, Parser(twice, true, false, 0));
    assert COMPLETION + [] == COMPLETION;
  }
}
