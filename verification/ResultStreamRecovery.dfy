/** When a parser can still succeed: after any pushes, thrown or not, exactly from the states whose
    buffer a legal continuation could complete. */
module ResultStreamRecovery {
  import opened Wrappers
  import opened Wire
  import opened ResultStream
  import opened ResultStreamProofs

  // ----- the states a parser can be in, its throws ignored -----

  ghost predicate Plausible(maximum: nat, p: Parser) {
    && (!p.magicRead ==> !p.complete && p.arrowBytes == 0)
    && (p.complete ==> p.buffer == [])
    && |p.buffer| <= ProtocolBytes(maximum)
    && (p.arrowBytes > maximum ==> Doomed(maximum, p))
  }

  /** What is still to come before the first frame. */
  function Expected(p: Parser): Bytes {
    if p.magicRead then [] else MAGIC
  }

  /** Payloads the remaining budget has room for. */
  ghost predicate Fits(maximum: nat, p: Parser, payloads: seq<Bytes>) {
    && (forall i :: 0 <= i < |payloads| ==> payloads[i] != [])
    && p.arrowBytes + |Concat(payloads)| <= maximum
  }

  /** Streams one after the other, as a caller meets them who goes on after trailing bytes. */
  function Tails(groups: seq<seq<Bytes>>): Bytes {
    if groups == [] then [] else Tail(groups[0]) + Tails(groups[1..])
  }

  function Total(groups: seq<seq<Bytes>>): nat {
    if groups == [] then 0 else |Concat(groups[0])| + Total(groups[1..])
  }

  ghost predicate AllFit(maximum: nat, p: Parser, groups: seq<seq<Bytes>>) {
    && groups != []
    && (forall g, payload :: g in groups && payload in g ==> payload != [])
    && p.arrowBytes + Total(groups) <= maximum
  }

  /** The buffer is a leading part of legal rests of streams, or the stream is complete. */
  ghost predicate Recoverable(maximum: nat, p: Parser) {
    p.complete || exists groups :: AllFit(maximum, p, groups) && p.buffer <= Expected(p) + Tails(groups)
  }

  /** The buffer is a leading part of a legal rest of a stream, or the stream is complete. */
  ghost predicate Completable(maximum: nat, p: Parser) {
    p.complete || exists payloads :: Fits(maximum, p, payloads) && p.buffer <= Expected(p) + Tail(payloads)
  }

  // ----- the frame loop, taken apart -----

  /** The payloads the frame loop takes off the buffer before it stops for whatever reason. */
  function Taken(maximum: nat, p: Parser): seq<Bytes>
    decreases |p.buffer|
  {
    if |p.buffer| < HEADER_BYTES || FrameKind(p.buffer) != ARROW_FRAME then []
    else
      var length := PayloadLength(p.buffer);
      if length == 0 || length > maximum || length > |p.buffer| - HEADER_BYTES || p.arrowBytes + length > maximum then []
      else
        [p.buffer[HEADER_BYTES..HEADER_BYTES + length]]
        + Taken(maximum, p.(buffer := p.buffer[HEADER_BYTES + length..], arrowBytes := p.arrowBytes + length))
  }

  /** How the bytes in the buffer, the payloads taken off and what is left belong together. */
  ghost predicate TakenApart(maximum: nat, p: Parser, taken: seq<Bytes>, d: Step) {
    && (forall i :: 0 <= i < |taken| ==> taken[i] != [])
    && d.next.magicRead && |d.next.buffer| <= |p.buffer|
    && (d.outcome != Threw(OverBudget) ==> d.next.arrowBytes <= maximum)
    && match d.outcome
       case Parsed(chunks) =>
         && chunks == taken && d.next.arrowBytes == p.arrowBytes + |Concat(taken)|
         && (if d.next.complete then d.next.buffer == [] && p.buffer == Tail(taken)
             else p.buffer == ArrowFrames(taken) + d.next.buffer)
       case Threw(Trailing) =>
         && d.next.arrowBytes == p.arrowBytes + |Concat(taken)| && !d.next.complete
         && d.next.buffer != [] && p.buffer == Tail(taken) + d.next.buffer
       case Threw(BadFrame) =>
         && d.next.arrowBytes == p.arrowBytes + |Concat(taken)| && !d.next.complete
         && p.buffer == ArrowFrames(taken) + d.next.buffer
       case Threw(cause) => cause.OverBudget? && d.next.arrowBytes > maximum && !d.next.complete
  }

  lemma StopsHere(maximum: nat, p: Parser)
    requires p.magicRead && !p.complete && p.arrowBytes <= maximum && Taken(maximum, p) == []
    ensures TakenApart(maximum, p, [], DrainStep(maximum, p))
  {
    hide PayloadLength;
    NoFrames(p.buffer);
    assert Concat([]) == [];
    if |p.buffer| >= HEADER_BYTES && FrameKind(p.buffer) == COMPLETE_FRAME && PayloadLength(p.buffer) == 0 {
      RebuildFrame(p.buffer);
      TailStart([]);
      hide Frame;
      hide Tail;
      assert p.buffer[HEADER_BYTES..HEADER_BYTES] == [];
      assert p.buffer == COMPLETION + p.buffer[HEADER_BYTES..];
      assert |p.buffer| == HEADER_BYTES ==> p.buffer == COMPLETION;
    }
  }

  lemma TakesOne(maximum: nat, p: Parser, payload: Bytes, rest: Parser, taken: seq<Bytes>, d: Step)
    requires payload != [] && rest.arrowBytes == p.arrowBytes + |payload|
    requires p.buffer == Frame(ARROW_FRAME, payload) + rest.buffer
    requires TakenApart(maximum, rest, taken, d)
    ensures TakenApart(maximum, p, [payload] + taken, Prepend(payload, d))
  {
    FramesCons(payload, taken, d.next.buffer);
    Assoc(Frame(ARROW_FRAME, payload), Tail(taken), d.next.buffer);
    hide Frame;
    hide Tail;
    hide ArrowFrames;
    hide Concat;
  }

  lemma {:induction false} DrainTakenApart(maximum: nat, p: Parser)
    requires p.magicRead && !p.complete && p.arrowBytes <= maximum
    ensures TakenApart(maximum, p, Taken(maximum, p), DrainStep(maximum, p))
    decreases |p.buffer|
  {
    hide PayloadLength;
    hide TakenApart;
    hide Frame;
    if Taken(maximum, p) == [] {
      StopsHere(maximum, p);
    } else {
      var length := PayloadLength(p.buffer);
      RebuildFrame(p.buffer);
      var payload := p.buffer[HEADER_BYTES..HEADER_BYTES + length];
      var rest := p.(buffer := p.buffer[HEADER_BYTES + length..], arrowBytes := p.arrowBytes + length);
      DrainTakenApart(maximum, rest);
      TakesOne(maximum, p, payload, rest, Taken(maximum, rest), DrainStep(maximum, rest));
    }
  }

  // ----- pushes that parse -----

  /** The state in which the frame loop starts, for a push that gets that far. */
  function Filled(p: Parser, chunk: Bytes): Parser {
    var filled := p.buffer + chunk;
    if p.magicRead then p.(buffer := filled)
    else p.(buffer := if |filled| >= |MAGIC| then filled[|MAGIC|..] else [], magicRead := true)
  }

  /** A push either returns early or runs the frame loop. */
  lemma PushCases(maximum: nat, p: Parser, chunk: Bytes)
    requires !p.complete || chunk == []
    requires |p.buffer| + |chunk| <= ProtocolBytes(maximum)
    ensures var filled := p.buffer + chunk;
            PushStep(maximum, p, chunk) ==
              if p.magicRead || MAGIC <= filled then DrainStep(maximum, Filled(p, chunk))
              else Step(p.(buffer := filled), if |filled| < |MAGIC| then Parsed([]) else Threw(BadMagic))
    ensures p.magicRead || MAGIC <= p.buffer + chunk ==> p.buffer + chunk == Expected(p) + Filled(p, chunk).buffer
  {
    hide DrainStep;
    hide MAGIC;
    var filled := p.buffer + chunk;
    if !p.magicRead && |filled| >= |MAGIC| {
      assert MAGIC <= filled <==> filled[..|MAGIC|] == MAGIC;
    }
  }

  // ----- from the state after a push back to the state before -----

  lemma PrefixCat(a: Bytes, b: Bytes, c: Bytes)
    requires b <= c
    ensures a + b <= a + c
  {
    assert c == b + c[|b|..];
    Assoc(a, b, c[|b|..]);
  }

  lemma PrefixOfPrefix(a: Bytes, more: Bytes, c: Bytes)
    requires a + more <= c
    ensures a <= c
  {
  }

  /** Payloads taken off before a group belong to that group. */
  lemma JoinFirst(taken: seq<Bytes>, groups: seq<seq<Bytes>>)
    requires groups != []
    ensures var joined := [taken + groups[0]] + groups[1..];
            Tails(joined) == ArrowFrames(taken) + Tails(groups) && Total(joined) == |Concat(taken)| + Total(groups)
  {
    TailAppend(taken, groups[0]);
    ConcatAppend(taken, groups[0]);
    Assoc(ArrowFrames(taken), Tail(groups[0]), Tails(groups[1..]));
    assert ([taken + groups[0]] + groups[1..])[1..] == groups[1..];
  }

  lemma AddGroup(taken: seq<Bytes>, groups: seq<seq<Bytes>>)
    ensures Tails([taken] + groups) == Tail(taken) + Tails(groups)
    ensures Total([taken] + groups) == |Concat(taken)| + Total(groups)
  {
    assert ([taken] + groups)[1..] == groups;
  }

  lemma NonEmptyIn(taken: seq<Bytes>)
    requires forall i :: 0 <= i < |taken| ==> taken[i] != []
    ensures forall payload :: payload in taken ==> payload != []
  {
  }

  /** Whatever the frame loop leaves that is still recoverable, it found recoverable. */
  lemma LoopBack(maximum: nat, f: Parser, taken: seq<Bytes>, d: Step)
    requires f.magicRead && !f.complete && TakenApart(maximum, f, taken, d) && Recoverable(maximum, d.next)
    ensures Recoverable(maximum, f)
  {
    hide ArrowFrames;
    hide Tail;
    hide Concat;
    NonEmptyIn(taken);
    if d.next.complete {
      AddGroup(taken, []);
      assert AllFit(maximum, f, [taken]) && f.buffer <= [] + Tails([taken]) by {
        assert [taken] + [] == [taken] && Tail(taken) + Tails([]) == Tail(taken) && Total([]) == 0;
      }
    } else {
      var groups :| AllFit(maximum, d.next, groups) && d.next.buffer <= Expected(d.next) + Tails(groups);
      assert [] + Tails(groups) == Tails(groups);
      if d.outcome == Threw(Trailing) {
        AddGroup(taken, groups);
        PrefixCat(Tail(taken), d.next.buffer, Tails(groups));
        assert AllFit(maximum, f, [taken] + groups) && f.buffer <= [] + Tails([taken] + groups);
      } else {
        JoinFirst(taken, groups);
        PrefixCat(ArrowFrames(taken), d.next.buffer, Tails(groups));
        var joined := [taken + groups[0]] + groups[1..];
        assert groups == [groups[0]] + groups[1..];
        assert AllFit(maximum, f, joined) && f.buffer <= [] + Tails(joined);
      }
    }
  }

  lemma StepBack(maximum: nat, p: Parser, chunk: Bytes)
    requires Plausible(maximum, p) && p.arrowBytes <= maximum && Recoverable(maximum, PushStep(maximum, p, chunk).next)
    ensures Recoverable(maximum, p)
  {
    hide DrainStep;
    hide MAGIC;
    hide Tails;
    hide Doomed;
    var next := PushStep(maximum, p, chunk).next;
    if !p.complete && |p.buffer| + |chunk| <= ProtocolBytes(maximum) {
      PushCases(maximum, p, chunk);
      hide PushStep;
      if p.magicRead || MAGIC <= p.buffer + chunk {
        var f := Filled(p, chunk);
        DrainTakenApart(maximum, f);
        LoopBack(maximum, f, Taken(maximum, f), DrainStep(maximum, f));
        FilledBack(maximum, p, chunk, f);
      } else {
        var groups :| AllFit(maximum, next, groups) && next.buffer <= Expected(next) + Tails(groups);
        PrefixOfPrefix(p.buffer, chunk, Expected(p) + Tails(groups));
        assert AllFit(maximum, p, groups);
      }
    }
  }

  lemma FilledBack(maximum: nat, p: Parser, chunk: Bytes, f: Parser)
    requires f.magicRead && !f.complete && f.arrowBytes == p.arrowBytes && Recoverable(maximum, f)
    requires p.buffer + chunk == Expected(p) + f.buffer
    ensures Recoverable(maximum, p)
  {
    hide Tails;
    hide MAGIC;
    var groups :| AllFit(maximum, f, groups) && f.buffer <= Expected(f) + Tails(groups);
    assert [] + Tails(groups) == Tails(groups);
    PrefixCat(Expected(p), f.buffer, Tails(groups));
    PrefixOfPrefix(p.buffer, chunk, Expected(p) + Tails(groups));
    assert AllFit(maximum, p, groups);
  }

  // ----- and forward -----

  lemma DrainFrame(maximum: nat, f: Parser, payload: Bytes, rest: Bytes)
    requires ValidMaximum(maximum) && payload != [] && f.arrowBytes + |payload| <= maximum
    requires f.buffer == Frame(ARROW_FRAME, payload) + rest
    ensures DrainStep(maximum, f)
            == Prepend(payload, DrainStep(maximum, f.(buffer := rest, arrowBytes := f.arrowBytes + |payload|)))
  {
    hide Frame;
    hide PayloadLength;
    ReadHeader(ARROW_FRAME, payload, rest);
  }

  /** Less than a header, or less than the frame the header announces, stays in the buffer. */
  lemma DrainWaits(maximum: nat, f: Parser, payload: Bytes, behind: Bytes, rest: Bytes)
    requires ValidMaximum(maximum) && payload != [] && f.arrowBytes + |payload| <= maximum
    requires f.buffer + rest == Frame(ARROW_FRAME, payload) + behind && |f.buffer| < HEADER_BYTES + |payload|
    ensures DrainStep(maximum, f) == Step(f, Parsed([]))
  {
    hide Frame;
    hide PayloadLength;
    if |f.buffer| >= HEADER_BYTES {
      HeaderOfPrefix(f.buffer, rest);
      ReadHeader(ARROW_FRAME, payload, behind);
    }
  }

  lemma DrainCompletes(maximum: nat, f: Parser, rest: Bytes)
    requires f.buffer + rest == COMPLETION
    ensures DrainStep(maximum, f)
            == if rest == [] then Step(f.(buffer := [], complete := true), Parsed([])) else Step(f, Parsed([]))
  {
    hide Frame;
    hide PayloadLength;
    if rest == [] {
      ReadHeader(COMPLETE_FRAME, [], []);
      assert COMPLETION + [] == COMPLETION;
    }
  }

  /** What is left of a leading part of a stream is a leading part of the rest of that stream. */
  lemma {:induction false} DrainAdvances(maximum: nat, f: Parser, payloads: seq<Bytes>, rest: Bytes) returns (left: seq<Bytes>)
    requires ValidMaximum(maximum) && f.magicRead && !f.complete && Fits(maximum, f, payloads)
    requires f.buffer + rest == Tail(payloads)
    ensures var d := DrainStep(maximum, f);
            && d.outcome.Parsed? && d.next.magicRead && (rest == [] ==> d.next.complete)
            && (d.next.complete || (Fits(maximum, d.next, left) && d.next.buffer + rest == Tail(left)))
            && (d.next.complete ==> d.next.buffer == [])
    decreases |payloads|
  {
    hide Tail;
    hide Frame;
    hide DrainStep;
    TailStart(payloads);
    left := payloads;
    if payloads == [] {
      DrainCompletes(maximum, f, rest);
    } else {
      var length, behind := HEADER_BYTES + |payloads[0]|, Tail(payloads[1..]);
      if |f.buffer| < length {
        DrainWaits(maximum, f, payloads[0], behind, rest);
      } else {
        var next := f.(buffer := f.buffer[length..], arrowBytes := f.arrowBytes + |payloads[0]|);
        SplitFrame(f.buffer, rest, Frame(ARROW_FRAME, payloads[0]), behind);
        DrainFrame(maximum, f, payloads[0], next.buffer);
        left := DrainAdvances(maximum, next, payloads[1..], rest);
      }
    }
  }

  lemma SplitFrame(buffer: Bytes, rest: Bytes, frame: Bytes, behind: Bytes)
    requires buffer + rest == frame + behind && |buffer| >= |frame|
    ensures buffer == frame + buffer[|frame|..] && buffer[|frame|..] + rest == behind
  {
    assert buffer[..|frame|] == (buffer + rest)[..|frame|] == frame;
    assert buffer[|frame|..] + rest == (buffer + rest)[|frame|..] == behind;
  }

  lemma DrainTrailing(maximum: nat, f: Parser, behind: Bytes)
    requires behind != [] && f.buffer == COMPLETION + behind
    ensures DrainStep(maximum, f) == Step(f.(buffer := behind), Threw(Trailing))
  {
    hide Frame;
    hide PayloadLength;
    ReadHeader(COMPLETE_FRAME, [], behind);
  }

  /** A stream with bytes behind it is taken off whole, and the bytes behind it are left. */
  lemma {:induction false} DrainTrails(maximum: nat, f: Parser, payloads: seq<Bytes>, behind: Bytes)
    requires ValidMaximum(maximum) && f.magicRead && !f.complete && Fits(maximum, f, payloads)
    requires behind != [] && f.buffer == Tail(payloads) + behind
    ensures DrainStep(maximum, f)
            == Step(f.(buffer := behind, arrowBytes := f.arrowBytes + |Concat(payloads)|), Threw(Trailing))
    decreases |payloads|
  {
    hide Tail;
    hide Frame;
    hide DrainStep;
    TailStart(payloads);
    if payloads == [] {
      DrainTrailing(maximum, f, behind);
    } else {
      var rest := Tail(payloads[1..]) + behind;
      Assoc(Frame(ARROW_FRAME, payloads[0]), Tail(payloads[1..]), behind);
      DrainFrame(maximum, f, payloads[0], rest);
      DrainTrails(maximum, f.(buffer := rest, arrowBytes := f.arrowBytes + |payloads[0]|), payloads[1..], behind);
    }
  }

  /** Either the buffer ends inside the first group, or the first group is whole and bytes of the
      others follow it. */
  lemma FirstGroup(expected: Bytes, buffer: Bytes, groups: seq<seq<Bytes>>)
    requires groups != [] && buffer <= expected + Tails(groups) && !(buffer <= expected + Tail(groups[0]))
    ensures var behind := buffer[|expected + Tail(groups[0])|..];
            && behind != [] && buffer == expected + (Tail(groups[0]) + behind)
            && groups[1..] != [] && behind <= Tails(groups[1..])
  {
    hide Tail;
    var first := expected + Tail(groups[0]);
    Assoc(expected, Tail(groups[0]), Tails(groups[1..]));
    assert expected + Tails(groups) == first + Tails(groups[1..]);
    var behind := buffer[|first|..];
    assert buffer == first + behind;
    DropCommonPrefix(first, behind, Tails(groups[1..]));
    Assoc(expected, Tail(groups[0]), behind);
  }

  /** What the frame loop finds recoverable, it leaves recoverable. */
  lemma LoopForward(maximum: nat, f: Parser)
    requires ValidMaximum(maximum) && f.magicRead && !f.complete && Recoverable(maximum, f)
    ensures Recoverable(maximum, DrainStep(maximum, f).next)
  {
    hide Tail;
    hide MAGIC;
    hide DrainStep;
    var groups :| AllFit(maximum, f, groups) && f.buffer <= Expected(f) + Tails(groups);
    var next := DrainStep(maximum, f).next;
    FirstFits(maximum, f, groups);
    if f.buffer <= [] + Tail(groups[0]) {
      var rest := Tail(groups[0])[|f.buffer|..];
      assert f.buffer + rest == Tail(groups[0]);
      var left := DrainAdvances(maximum, f, groups[0], rest);
      if !next.complete {
        AddGroup(left, []);
        assert [left] + [] == [left] && Tail(left) + Tails([]) == Tail(left);
        assert AllFit(maximum, next, [left]) && next.buffer <= [] + Tails([left]);
      }
    } else {
      FirstGroup([], f.buffer, groups);
      var behind := f.buffer[|[] + Tail(groups[0])|..];
      assert f.buffer == Tail(groups[0]) + behind;
      DrainTrails(maximum, f, groups[0], behind);
      assert AllFit(maximum, next, groups[1..]) && next.buffer <= [] + Tails(groups[1..]);
    }
  }

  lemma FirstFits(maximum: nat, p: Parser, groups: seq<seq<Bytes>>)
    requires AllFit(maximum, p, groups)
    ensures Fits(maximum, p, groups[0])
    ensures groups[1..] != [] ==> AllFit(maximum, p.(arrowBytes := p.arrowBytes + |Concat(groups[0])|), groups[1..])
  {
    assert forall i :: 0 <= i < |groups[0]| ==> groups[0][i] in groups[0];
  }

  /** A legal rest of a stream, pushed at once, completes the parser. */
  lemma PushCompletes(maximum: nat, p: Parser, payloads: seq<Bytes>) returns (rest: Bytes)
    requires ValidMaximum(maximum) && Plausible(maximum, p) && !p.complete
    requires Fits(maximum, p, payloads) && p.buffer <= Expected(p) + Tail(payloads)
    ensures PushStep(maximum, p, rest).outcome.Parsed? && FinishSucceeds(PushStep(maximum, p, rest).next)
  {
    hide DrainStep;
    hide MAGIC;
    hide Doomed;
    hide Tail;
    hide Concat;
    var whole := Expected(p) + Tail(payloads);
    rest := whole[|p.buffer|..];
    assert p.buffer + rest == whole;
    RestLength(maximum, p, payloads);
    PushCases(maximum, p, rest);
    hide PushStep;
    var f := Filled(p, rest);
    DropCommonPrefix(Expected(p), f.buffer, Tail(payloads));
    DropCommonPrefix(Expected(p), Tail(payloads), f.buffer);
    assert f.buffer + [] == Tail(payloads);
    var left := DrainAdvances(maximum, f, payloads, []);
  }

  lemma RestLength(maximum: nat, p: Parser, payloads: seq<Bytes>)
    requires Fits(maximum, p, payloads)
    ensures |Expected(p) + Tail(payloads)| <= ProtocolBytes(maximum)
  {
    FramesLength(payloads);
    NonEmptyCount(payloads);
    hide ArrowFrames;
    hide Concat;
  }

  /** An empty push takes the first of several streams off and leaves the bytes behind it. */
  lemma TakesFirstGroup(maximum: nat, p: Parser, groups: seq<seq<Bytes>>) returns (behind: Bytes)
    requires ValidMaximum(maximum) && Plausible(maximum, p) && !p.complete
    requires AllFit(maximum, p, groups) && p.buffer <= Expected(p) + Tails(groups)
    requires !(p.buffer <= Expected(p) + Tail(groups[0]))
    ensures groups[1..] != [] && behind != [] && behind <= Tails(groups[1..]) && |behind| <= |p.buffer|
    ensures PushStep(maximum, p, []).next == Parser(behind, true, false, p.arrowBytes + |Concat(groups[0])|)
  {
    hide DrainStep;
    hide MAGIC;
    hide Tail;
    hide Doomed;
    hide Concat;
    FirstFits(maximum, p, groups);
    FirstGroup(Expected(p), p.buffer, groups);
    behind := p.buffer[|Expected(p) + Tail(groups[0])|..];
    assert p.buffer + [] == p.buffer;
    PushCases(maximum, p, []);
    hide PushStep;
    var f := Filled(p, []);
    DropCommonPrefix(Expected(p), f.buffer, Tail(groups[0]) + behind);
    DropCommonPrefix(Expected(p), Tail(groups[0]) + behind, f.buffer);
    DrainTrails(maximum, f, groups[0], behind);
  }

  /** A recoverable parser recovers: each push takes one stream off, and the last one completes. */
  lemma {:induction false} Recovers(maximum: nat, p: Parser, groups: seq<seq<Bytes>>) returns (later: seq<Bytes>)
    requires ValidMaximum(maximum) && Plausible(maximum, p) && !p.complete
    requires AllFit(maximum, p, groups) && p.buffer <= Expected(p) + Tails(groups)
    ensures FinishSucceeds(Ignoring(maximum, p, later))
    decreases |groups|
  {
    hide DrainStep;
    hide MAGIC;
    hide Tail;
    hide Doomed;
    FirstFits(maximum, p, groups);
    if p.buffer <= Expected(p) + Tail(groups[0]) {
      var rest := PushCompletes(maximum, p, groups[0]);
      later := [rest];
      IgnoringOne(maximum, p, rest);
    } else {
      var behind := TakesFirstGroup(maximum, p, groups);
      hide PushStep;
      var next := PushStep(maximum, p, []).next;
      assert [] + Tails(groups[1..]) == Tails(groups[1..]);
      var more := Recovers(maximum, next, groups[1..]);
      later := [[]] + more;
      assert later[1..] == more;
    }
  }

  // ----- every state a caller can produce -----

  lemma {:induction false} DrainShrinks(maximum: nat, f: Parser)
    requires f.magicRead
    ensures |DrainStep(maximum, f).next.buffer| <= |f.buffer|
    decreases |f.buffer|
  {
    hide PayloadLength;
    if |f.buffer| >= HEADER_BYTES && FrameKind(f.buffer) == ARROW_FRAME
       && 0 < PayloadLength(f.buffer) <= |f.buffer| - HEADER_BYTES {
      var length := PayloadLength(f.buffer);
      DrainShrinks(maximum, f.(buffer := f.buffer[HEADER_BYTES + length..], arrowBytes := f.arrowBytes + length));
    }
  }

  lemma LoopKeepsPlausible(maximum: nat, f: Parser)
    requires f.magicRead && !f.complete && |f.buffer| <= ProtocolBytes(maximum) && f.arrowBytes <= maximum
    ensures Plausible(maximum, DrainStep(maximum, f).next)
  {
    var d := DrainStep(maximum, f);
    DrainTakenApart(maximum, f);
    if d.outcome == Threw(OverBudget) {
      DrainThrowsDoomed(maximum, f, OverBudget);
    }
    hide DrainStep;
    hide Doomed;
    hide Tail;
    hide ArrowFrames;
    hide Concat;
  }

  /** No push, thrown or not, leads out of the plausible states. */
  lemma PushKeepsPlausible(maximum: nat, p: Parser, chunk: Bytes)
    requires Plausible(maximum, p)
    ensures Plausible(maximum, PushStep(maximum, p, chunk).next)
  {
    hide MAGIC;
    if !p.complete && |p.buffer| + |chunk| <= ProtocolBytes(maximum) {
      PushCases(maximum, p, chunk);
      if p.arrowBytes > maximum {
        DoomedStays(maximum, p, chunk);
        DrainShrinks(maximum, Filled(p, chunk));
        DrainMagicKept(maximum, Filled(p, chunk));
      } else if p.magicRead || MAGIC <= p.buffer + chunk {
        LoopKeepsPlausible(maximum, Filled(p, chunk));
      }
    }
    hide DrainStep;
    hide Doomed;
    if p.complete && chunk == [] {
      assert p.magicRead;
      CompletePush(maximum, p);
    }
  }

  lemma {:induction false} IgnoringKeepsPlausible(maximum: nat, p: Parser, transport: seq<Bytes>)
    requires Plausible(maximum, p)
    ensures Plausible(maximum, Ignoring(maximum, p, transport))
    decreases |transport|
  {
    hide Plausible;
    hide PushStep;
    if transport != [] {
      PushKeepsPlausible(maximum, p, transport[0]);
      IgnoringKeepsPlausible(maximum, PushStep(maximum, p, transport[0]).next, transport[1..]);
    }
  }

  lemma {:induction false} SucceedsFromRecoverable(maximum: nat, p: Parser, later: seq<Bytes>)
    requires Plausible(maximum, p) && FinishSucceeds(Ignoring(maximum, p, later))
    ensures Recoverable(maximum, p)
    decreases |later|
  {
    hide PushStep;
    hide Recoverable;
    if later == [] {
      CompleteIsRecoverable(maximum, p);
    } else {
      PushKeepsPlausible(maximum, p, later[0]);
      SucceedsFromRecoverable(maximum, PushStep(maximum, p, later[0]).next, later[1..]);
      if p.arrowBytes > maximum {
        IgnoringStaysDoomed(maximum, p, later);
      }
      StepBack(maximum, p, later[0]);
    }
  }

  lemma CompleteIsRecoverable(maximum: nat, p: Parser)
    requires p.complete
    ensures Recoverable(maximum, p) && Completable(maximum, p)
  {
  }

  // ----- the exact conditions -----

  /** A caller who ignores every throw can still bring the parser to a successful finish. */
  ghost predicate CanRecover(maximum: nat, p: Parser) {
    exists later :: FinishSucceeds(Ignoring(maximum, p, later))
  }

  /** Some further pushes all parse, and finish then succeeds. */
  ghost predicate CanFinish(maximum: nat, p: Parser) {
    exists transport ::
      Feed(maximum, p, transport).error.None? && FinishSucceeds(Feed(maximum, p, transport).next)
  }

  /** After any pushes, thrown or not, a successful finish is still possible for a caller who ignores
      throws exactly when the parser is complete or its buffer is a leading part of legal streams, one
      after the other, within what is left of the budget. */
  lemma RecoveryIff(maximum: nat, pushed: seq<Bytes>)
    requires ValidMaximum(maximum)
    ensures var p := Ignoring(maximum, INITIAL, pushed);
            CanRecover(maximum, p) <==> Recoverable(maximum, p)
  {
    IgnoringKeepsPlausible(maximum, INITIAL, pushed);
    hide Ignoring;
    RecoveryFrom(maximum, Ignoring(maximum, INITIAL, pushed));
  }

  lemma RecoveryFrom(maximum: nat, p: Parser)
    requires ValidMaximum(maximum) && Plausible(maximum, p)
    ensures CanRecover(maximum, p) <==> Recoverable(maximum, p)
  {
    hide Tails;
    hide Plausible;
    if CanRecover(maximum, p) {
      var later :| FinishSucceeds(Ignoring(maximum, p, later));
      SucceedsFromRecoverable(maximum, p, later);
    }
    if Recoverable(maximum, p) {
      if p.complete {
        CompleteFinishes(maximum, p);
      } else {
        var groups :| AllFit(maximum, p, groups) && p.buffer <= Expected(p) + Tails(groups);
        var later := Recovers(maximum, p, groups);
      }
    }
  }

  lemma CompleteFinishes(maximum: nat, p: Parser)
    requires Plausible(maximum, p) && p.complete
    ensures FinishSucceeds(p) && CanRecover(maximum, p) && CanFinish(maximum, p)
  {
    assert FinishSucceeds(Ignoring(maximum, p, []));
    assert Feed(maximum, p, []).error.None? && FinishSucceeds(Feed(maximum, p, []).next);
  }

  /** The same for a caller who stops at the first throw from here on: the buffer must be a leading part
      of a single legal rest of a stream. */
  lemma FinishIff(maximum: nat, pushed: seq<Bytes>)
    requires ValidMaximum(maximum)
    ensures var p := Ignoring(maximum, INITIAL, pushed);
            CanFinish(maximum, p) <==> Completable(maximum, p)
  {
    IgnoringKeepsPlausible(maximum, INITIAL, pushed);
    hide Ignoring;
    FinishFrom(maximum, Ignoring(maximum, INITIAL, pushed));
  }

  lemma FinishFrom(maximum: nat, p: Parser)
    requires ValidMaximum(maximum) && Plausible(maximum, p)
    ensures CanFinish(maximum, p) <==> Completable(maximum, p)
  {
    hide Plausible;
    hide PushStep;
    hide Tail;
    if CanFinish(maximum, p) {
      var transport :| Feed(maximum, p, transport).error.None? && FinishSucceeds(Feed(maximum, p, transport).next);
      FinishesFromCompletable(maximum, p, transport);
    }
    if Completable(maximum, p) {
      if p.complete {
        CompleteFinishes(maximum, p);
      } else {
        var payloads :| Fits(maximum, p, payloads) && p.buffer <= Expected(p) + Tail(payloads);
        var rest := PushCompletes(maximum, p, payloads);
        var step := PushStep(maximum, p, rest);
        assert [rest][1..] == [];
        assert Feed(maximum, step.next, []) == Fed(step.next, [], None);
        assert Feed(maximum, p, [rest]).error.None? && FinishSucceeds(Feed(maximum, p, [rest]).next);
      }
    }
  }

  lemma {:induction false} FinishesFromCompletable(maximum: nat, p: Parser, transport: seq<Bytes>)
    requires Plausible(maximum, p)
    requires Feed(maximum, p, transport).error.None? && FinishSucceeds(Feed(maximum, p, transport).next)
    ensures Completable(maximum, p)
    decreases |transport|
  {
    hide PushStep;
    hide Completable;
    if transport == [] {
      CompleteIsRecoverable(maximum, p);
    } else {
      PushKeepsPlausible(maximum, p, transport[0]);
      FinishesFromCompletable(maximum, PushStep(maximum, p, transport[0]).next, transport[1..]);
      if p.arrowBytes > maximum {
        DoomedStays(maximum, p, transport[0]);
      }
      ParsedBack(maximum, p, transport[0]);
    }
  }

  /** A push that parses leaves nothing completable that was not. */
  lemma ParsedBack(maximum: nat, p: Parser, chunk: Bytes)
    requires Plausible(maximum, p) && p.arrowBytes <= maximum
    requires PushStep(maximum, p, chunk).outcome.Parsed? && Completable(maximum, PushStep(maximum, p, chunk).next)
    ensures Completable(maximum, p)
  {
    hide DrainStep;
    hide MAGIC;
    hide Doomed;
    hide Tail;
    var next := PushStep(maximum, p, chunk).next;
    if !p.complete {
      PushCases(maximum, p, chunk);
      hide PushStep;
      if p.magicRead || MAGIC <= p.buffer + chunk {
        var f := Filled(p, chunk);
        DrainTakenApart(maximum, f);
        var payloads := LoopParsedBack(maximum, f, Taken(maximum, f), DrainStep(maximum, f));
        PrefixCat(Expected(p), f.buffer, Tail(payloads));
        PrefixOfPrefix(p.buffer, chunk, Expected(p) + Tail(payloads));
        assert Fits(maximum, p, payloads);
      } else {
        var payloads :| Fits(maximum, next, payloads) && next.buffer <= Expected(next) + Tail(payloads);
        PrefixOfPrefix(p.buffer, chunk, Expected(p) + Tail(payloads));
        assert Fits(maximum, p, payloads);
      }
    }
  }

  lemma LoopParsedBack(maximum: nat, f: Parser, taken: seq<Bytes>, d: Step) returns (payloads: seq<Bytes>)
    requires f.magicRead && !f.complete && TakenApart(maximum, f, taken, d) && d.outcome.Parsed? && Completable(maximum, d.next)
    ensures Fits(maximum, f, payloads) && f.buffer <= Tail(payloads)
  {
    hide ArrowFrames;
    hide Tail;
    hide Concat;
    if d.next.complete {
      payloads := taken;
    } else {
      var more :| Fits(maximum, d.next, more) && d.next.buffer <= Expected(d.next) + Tail(more);
      assert [] + Tail(more) == Tail(more);
      payloads := taken + more;
      TailAppend(taken, more);
      ConcatAppend(taken, more);
      PrefixCat(ArrowFrames(taken), d.next.buffer, Tail(more));
    }
  }

  // ----- a push, judged before it is made -----

  /** The state whose buffer decides whether success is still possible after a push: the state itself
      when the push is refused by the first two checks, else the state with the chunk appended. */
  function Deciding(maximum: nat, p: Parser, chunk: Bytes): Parser {
    if p.complete || |p.buffer| + |chunk| > ProtocolBytes(maximum) then p else p.(buffer := p.buffer + chunk)
  }

  /** Whether a push, throwing or not, leaves a parser that can still succeed is decided by the buffer
      and the chunk alone. */
  lemma AfterPushIff(maximum: nat, pushed: seq<Bytes>, chunk: Bytes)
    requires ValidMaximum(maximum)
    ensures var p := Ignoring(maximum, INITIAL, pushed);
            CanRecover(maximum, PushStep(maximum, p, chunk).next) <==> Recoverable(maximum, Deciding(maximum, p, chunk))
  {
    IgnoringKeepsPlausible(maximum, INITIAL, pushed);
    hide Ignoring;
    AfterPushFrom(maximum, Ignoring(maximum, INITIAL, pushed), chunk);
  }

  lemma AfterPushFrom(maximum: nat, p: Parser, chunk: Bytes)
    requires ValidMaximum(maximum) && Plausible(maximum, p)
    ensures CanRecover(maximum, PushStep(maximum, p, chunk).next) <==> Recoverable(maximum, Deciding(maximum, p, chunk))
  {
    hide MAGIC;
    hide DrainStep;
    hide Tails;
    hide CanRecover;
    var next := PushStep(maximum, p, chunk).next;
    PushKeepsPlausible(maximum, p, chunk);
    RecoveryFrom(maximum, next);
    if p.arrowBytes > maximum {
      DoomedStays(maximum, p, chunk);
      DoomedIsLost(maximum, p, chunk);
    } else if p.complete || |p.buffer| + |chunk| > ProtocolBytes(maximum) {
      UnchangedByRefusal(maximum, p, chunk);
    } else {
      FilledIsRecoverableIff(maximum, p, chunk);
    }
  }

  lemma UnchangedByRefusal(maximum: nat, p: Parser, chunk: Bytes)
    requires Plausible(maximum, p) && (p.complete || |p.buffer| + |chunk| > ProtocolBytes(maximum))
    ensures PushStep(maximum, p, chunk).next == p
    ensures chunk != [] ==> PushStep(maximum, p, chunk).outcome == Threw(if p.complete then AfterComplete else Overflow)
  {
    if p.complete && chunk == [] {
      CompletePush(maximum, p);
    }
  }

  lemma DoomedIsLost(maximum: nat, p: Parser, chunk: Bytes)
    requires Plausible(maximum, p) && p.arrowBytes > maximum && Doomed(maximum, PushStep(maximum, p, chunk).next)
    ensures !CanRecover(maximum, PushStep(maximum, p, chunk).next)
    ensures !Recoverable(maximum, Deciding(maximum, p, chunk))
  {
    hide PushStep;
    hide Tails;
    var next := PushStep(maximum, p, chunk).next;
    forall later ensures !FinishSucceeds(Ignoring(maximum, next, later)) {
      IgnoringStaysDoomed(maximum, next, later);
    }
  }

  lemma FilledIsRecoverableIff(maximum: nat, p: Parser, chunk: Bytes)
    requires ValidMaximum(maximum) && Plausible(maximum, p) && p.arrowBytes <= maximum && !p.complete
    requires |p.buffer| + |chunk| <= ProtocolBytes(maximum)
    ensures Recoverable(maximum, PushStep(maximum, p, chunk).next)
            <==> Recoverable(maximum, p.(buffer := p.buffer + chunk))
  {
    hide MAGIC;
    hide DrainStep;
    hide Tails;
    hide Doomed;
    var filled := p.(buffer := p.buffer + chunk);
    assert filled.buffer + [] == filled.buffer;
    PushCases(maximum, p, chunk);
    PushCases(maximum, filled, []);
    assert Filled(filled, []) == Filled(p, chunk);
    if Recoverable(maximum, PushStep(maximum, p, chunk).next) {
      StepBack(maximum, filled, []);
    }
    if Recoverable(maximum, filled) {
      if p.magicRead || MAGIC <= filled.buffer {
        FilledForward(maximum, filled, Filled(p, chunk));
        LoopForward(maximum, Filled(p, chunk));
      }
    }
  }

  lemma FilledForward(maximum: nat, filled: Parser, f: Parser)
    requires f.magicRead && !f.complete && !filled.complete && f.arrowBytes == filled.arrowBytes
    requires filled.buffer == Expected(filled) + f.buffer && Recoverable(maximum, filled)
    ensures Recoverable(maximum, f)
  {
    hide MAGIC;
    hide Tails;
    var groups :| AllFit(maximum, filled, groups) && filled.buffer <= Expected(filled) + Tails(groups);
    DropCommonPrefix(Expected(filled), f.buffer, Tails(groups));
    assert [] + Tails(groups) == Tails(groups);
    assert AllFit(maximum, f, groups);
  }

  /** `step` is a throw of this push: the first two checks change nothing, a completion with bytes
      behind it leaves exactly those bytes, and after any other throw success is out of reach. */
  ghost predicate LeftBy(maximum: nat, p: Parser, chunk: Bytes, step: Step) {
    && step.outcome.Threw?
    && var cause := step.outcome.cause;
       && (cause.AfterComplete? <==> p.complete)
       && (cause.Overflow? <==> !p.complete && |p.buffer| + |chunk| > ProtocolBytes(maximum))
       && (cause.AfterComplete? || cause.Overflow? ==> step.next == p)
       && (cause.Trailing? ==>
             && step.next.buffer != []
             && exists payloads :: Fits(maximum, p, payloads)
                                   && p.buffer + chunk == Expected(p) + (Tail(payloads) + step.next.buffer))
       && (Final(cause) ==> !CanRecover(maximum, step.next))
  }

  /** What each throw leaves behind, in every state a caller can produce. */
  lemma WhatThrowsLeave(maximum: nat, pushed: seq<Bytes>, chunk: Bytes)
    requires ValidMaximum(maximum)
    requires PushStep(maximum, Ignoring(maximum, INITIAL, pushed), chunk).outcome.Threw?
    ensures var p := Ignoring(maximum, INITIAL, pushed);
            LeftBy(maximum, p, chunk, PushStep(maximum, p, chunk))
  {
    IgnoringKeepsPlausible(maximum, INITIAL, pushed);
    hide Ignoring;
    ThrowLeaves(maximum, Ignoring(maximum, INITIAL, pushed), chunk);
  }

  /** Whatever is pushed and however often it throws, the parser never holds more than the longest stream. */
  lemma NeverHoldsMore(maximum: nat, pushed: seq<Bytes>)
    requires ValidMaximum(maximum)
    ensures |Ignoring(maximum, INITIAL, pushed).buffer| <= |MAGIC| + 9 + 10 * maximum
  {
    IgnoringKeepsPlausible(maximum, INITIAL, pushed);
    hide Ignoring;
    hide Doomed;
  }

  lemma ThrowLeaves(maximum: nat, p: Parser, chunk: Bytes)
    requires Plausible(maximum, p) && PushStep(maximum, p, chunk).outcome.Threw?
    ensures LeftBy(maximum, p, chunk, PushStep(maximum, p, chunk))
  {
    hide MAGIC;
    hide DrainStep;
    hide Doomed;
    hide CanRecover;
    hide Tail;
    var step := PushStep(maximum, p, chunk);
    if p.complete || |p.buffer| + |chunk| > ProtocolBytes(maximum) {
      UnchangedByRefusal(maximum, p, chunk);
      if p.complete && chunk == [] {
        CompletePush(maximum, p);
      }
    } else {
      PushCases(maximum, p, chunk);
      hide PushStep;
      if p.magicRead || MAGIC <= p.buffer + chunk {
        LoopThrows(maximum, p, chunk, Filled(p, chunk));
      } else {
        BadMagicDooms(maximum, step.next);
      }
    }
  }

  lemma BadMagicDooms(maximum: nat, next: Parser)
    requires !next.complete && !next.magicRead && |next.buffer| >= |MAGIC| && !(MAGIC <= next.buffer)
    ensures !CanRecover(maximum, next)
  {
    hide MAGIC;
    assert MAGIC <= next.buffer <==> next.buffer[..|MAGIC|] == MAGIC;
    DoomedCannotRecover(maximum, next);
  }

  lemma DoomedCannotRecover(maximum: nat, p: Parser)
    requires Doomed(maximum, p)
    ensures !CanRecover(maximum, p)
  {
    forall later ensures !FinishSucceeds(Ignoring(maximum, p, later)) {
      IgnoringStaysDoomed(maximum, p, later);
    }
  }

  lemma LoopThrows(maximum: nat, p: Parser, chunk: Bytes, f: Parser)
    requires Plausible(maximum, p) && !p.complete && |p.buffer| + |chunk| <= ProtocolBytes(maximum)
    requires f == Filled(p, chunk) && p.buffer + chunk == Expected(p) + f.buffer && DrainStep(maximum, f).outcome.Threw?
    ensures LeftBy(maximum, p, chunk, DrainStep(maximum, f))
  {
    hide MAGIC;
    hide Tail;
    hide CanRecover;
    var d := DrainStep(maximum, f);
    if p.arrowBytes > maximum {
      DoomedDrains(maximum, p, chunk);
      DoomedCannotRecover(maximum, d.next);
    } else {
      DrainTakenApart(maximum, f);
      var taken := Taken(maximum, f);
      if Final(d.outcome.cause) {
        DrainThrowsDoomed(maximum, f, d.outcome.cause);
        DoomedCannotRecover(maximum, d.next);
      }
      hide DrainStep;
      hide Doomed;
      if d.outcome.cause.Trailing? {
        assert Fits(maximum, p, taken);
      }
    }
  }

  /** A budget once exceeded is met again by the frame loop at once. */
  lemma DoomedDrains(maximum: nat, p: Parser, chunk: Bytes)
    requires Doomed(maximum, p) && p.magicRead
    ensures var d := DrainStep(maximum, p.(buffer := p.buffer + chunk));
            d.outcome.Threw? && Final(d.outcome.cause) && Doomed(maximum, d.next)
  {
    hide PayloadLength;
    HeaderOfPrefix(p.buffer, chunk);
  }
}
