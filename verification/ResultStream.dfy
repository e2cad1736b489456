/** The viewer's incremental frame parser: what one push does to the parser's state, and the
    class that does it in place. Errors are values; a thrown ResultStreamError carries no detail
    in the source, so the causes below only name the throwing line. */
module ResultStream {
  import opened Wrappers
  import opened Wire

  const MAXIMUM_SAFE_INTEGER: nat := 0x1F_FFFF_FFFF_FFFF

  datatype Cause =
    | AfterComplete  // bytes pushed after the completion frame
    | Overflow       // buffer would exceed the longest legal stream
    | BadMagic
    | BadFrame       // unknown kind, bad length
    | OverBudget     // cumulative payload beyond the maximum
    | Trailing       // bytes behind the completion frame in the same push

  datatype Parser = Parser(buffer: Bytes, magicRead: bool, complete: bool, arrowBytes: nat)

  datatype Outcome = Parsed(chunks: seq<Bytes>) | Threw(cause: Cause)

  /** The state a push leaves behind, thrown or not, and what the caller sees. */
  datatype Step = Step(next: Parser, outcome: Outcome)

  const INITIAL: Parser := Parser([], false, false, 0)

  function ProtocolBytes(maximum: int): int {
    |MAGIC| + HEADER_BYTES + maximum * (HEADER_BYTES + 1)
  }

  predicate ValidMaximum(maximum: int) {
    0 < maximum <= MAXIMUM_SAFE_INTEGER && ProtocolBytes(maximum) <= MAXIMUM_SAFE_INTEGER
  }

  function Prepend(chunk: Bytes, step: Step): Step {
    match step.outcome
    case Parsed(chunks) => Step(step.next, Parsed([chunk] + chunks))
    case Threw(_) => step
  }

  /** The frame loop, from a state whose magic has been read. */
  function DrainStep(maximum: nat, p: Parser): Step
    decreases |p.buffer|
  {
    if |p.buffer| < HEADER_BYTES then Step(p, Parsed([]))
    else
      var kind, length := FrameKind(p.buffer), PayloadLength(p.buffer);
      if kind == COMPLETE_FRAME then
        if length != 0 then Step(p, Threw(BadFrame))
        else if |p.buffer| > HEADER_BYTES then Step(p.(buffer := p.buffer[HEADER_BYTES..]), Threw(Trailing))
        else Step(p.(buffer := [], complete := true), Parsed([]))
      else if kind != ARROW_FRAME || length == 0 || length > maximum then Step(p, Threw(BadFrame))
      else if length > |p.buffer| - HEADER_BYTES then Step(p, Parsed([]))
      else if p.arrowBytes + length > maximum then
        Step(p.(arrowBytes := p.arrowBytes + length), Threw(OverBudget))
      else
        Prepend(p.buffer[HEADER_BYTES..HEADER_BYTES + length],
                DrainStep(maximum, p.(buffer := p.buffer[HEADER_BYTES + length..], arrowBytes := p.arrowBytes + length)))
  }

  function PushStep(maximum: nat, p: Parser, chunk: Bytes): Step {
    if p.complete && |chunk| > 0 then Step(p, Threw(AfterComplete))
    else if |p.buffer| + |chunk| > ProtocolBytes(maximum) then Step(p, Threw(Overflow))
    else
      var filled := p.(buffer := p.buffer + chunk);
      if filled.magicRead then DrainStep(maximum, filled)
      else if |filled.buffer| < |MAGIC| then Step(filled, Parsed([]))
      else if filled.buffer[..|MAGIC|] != MAGIC then Step(filled, Threw(BadMagic))
      else DrainStep(maximum, filled.(buffer := filled.buffer[|MAGIC|..], magicRead := true))
  }

  predicate FinishSucceeds(p: Parser) {
    p.magicRead && p.complete && p.buffer == []
  }

  /** Successive pushes up to the first throw, as the reader loop issues them. */
  datatype Fed = Fed(next: Parser, chunks: seq<Bytes>, error: Option<Cause>)

  function Feed(maximum: nat, p: Parser, transport: seq<Bytes>): Fed
    decreases |transport|
  {
    if transport == [] then Fed(p, [], None)
    else
      var step := PushStep(maximum, p, transport[0]);
      match step.outcome
      case Threw(cause) => Fed(step.next, [], Some(cause))
      case Parsed(chunks) =>
        var fed := Feed(maximum, step.next, transport[1..]);
        fed.(chunks := chunks + fed.chunks)
  }

  /** Every push and the final finish succeed. */
  predicate Accepts(maximum: nat, transport: seq<Bytes>) {
    var fed := Feed(maximum, INITIAL, transport);
    fed.error.None? && FinishSucceeds(fed.next)
  }

  /** True of `step` prefixed by chunks already collected by the frame loop. */
  function Collected(chunks: seq<Bytes>, step: Step): Step {
    match step.outcome
    case Parsed(more) => Step(step.next, Parsed(chunks + more))
    case Threw(_) => step
  }

  lemma CollectedNothing(step: Step)
    ensures Collected([], step) == step
  {
    if step.outcome.Parsed? {
      assert [] + step.outcome.chunks == step.outcome.chunks;
    }
  }

  lemma CollectedSnoc(chunks: seq<Bytes>, chunk: Bytes, step: Step)
    ensures Collected(chunks + [chunk], step) == Collected(chunks, Prepend(chunk, step))
  {
    if step.outcome.Parsed? {
      assert chunks + [chunk] + step.outcome.chunks == chunks + ([chunk] + step.outcome.chunks);
    }
  }

  /** The byte-by-byte comparison with the magic prefix. */
  method StartsWithMagic(buffer: Bytes) returns (matches: bool)
    requires |buffer| >= |MAGIC|
    ensures matches <==> buffer[..|MAGIC|] == MAGIC
  {
    var index := 0;
    while index < |MAGIC|
      invariant 0 <= index <= |MAGIC|
      invariant forall k :: 0 <= k < index ==> buffer[k] == MAGIC[k]
    {
      if buffer[index] != MAGIC[index] {
        assert buffer[..|MAGIC|][index] != MAGIC[index];
        return false;
      }
      index := index + 1;
    }
    return true;
  }

  class ResultStreamParser {
    const maximumResultBytes: nat
    const maximumBufferedBytes: nat
    var buffer: Bytes
    var magicRead: bool
    var complete: bool
    var arrowBytes: nat

    ghost predicate Valid() {
      ValidMaximum(maximumResultBytes) && maximumBufferedBytes == ProtocolBytes(maximumResultBytes)
    }

    ghost function State(): Parser
      reads this
    {
      Parser(buffer, magicRead, complete, arrowBytes)
    }

    /** The guarded constructor of the source: no parser for an unusable maximum. */
    static method Create(maximum: int) returns (parser: ResultStreamParser?)
      ensures parser != null <==> 0 < maximum && |MAGIC| + 9 + 10 * maximum <= 0x1F_FFFF_FFFF_FFFF
      ensures parser != null ==>
                fresh(parser) && parser.Valid() && parser.maximumResultBytes == maximum && parser.State() == INITIAL
    {
      var maximumProtocolBytes := |MAGIC| + HEADER_BYTES + maximum * (HEADER_BYTES + 1);
      if maximum > MAXIMUM_SAFE_INTEGER || maximum <= 0 || maximumProtocolBytes > MAXIMUM_SAFE_INTEGER {
        return null;
      }
      parser := new ResultStreamParser(maximum);
    }

    constructor (maximum: nat)
      requires ValidMaximum(maximum)
      ensures Valid() && maximumResultBytes == maximum && State() == INITIAL
    {
      maximumResultBytes := maximum;
      maximumBufferedBytes := |MAGIC| + HEADER_BYTES + maximum * (HEADER_BYTES + 1);
      buffer, magicRead, complete, arrowBytes := [], false, false, 0;
    }

    method Push(chunk: Bytes) returns (outcome: Outcome)
      requires Valid()
      modifies this
      ensures Step(State(), outcome) == PushStep(maximumResultBytes, old(State()), chunk)
    {
      hide DrainStep;
      hide MAGIC;
      if complete && |chunk| > 0 {
        return Threw(AfterComplete);
      }
      if |buffer| + |chunk| > maximumBufferedBytes {
        return Threw(Overflow);
      }
      buffer := buffer + chunk;
      if !magicRead {
        if |buffer| < |MAGIC| {
          return Parsed([]);
        }
        var matches := StartsWithMagic(buffer);
        if !matches {
          return Threw(BadMagic);
        }
        buffer := buffer[|MAGIC|..];
        magicRead := true;
      }
      outcome := DrainFrames();
    }

    /** The while loop of push. */
    method DrainFrames() returns (outcome: Outcome)
      requires Valid()
      modifies this
      ensures Step(State(), outcome) == DrainStep(maximumResultBytes, old(State()))
    {
      hide PayloadLength;
      hide FrameKind;
      var arrowChunks: seq<Bytes> := [];
      ghost var target := DrainStep(maximumResultBytes, State());
      CollectedNothing(target);
      while |buffer| >= HEADER_BYTES
        invariant Collected(arrowChunks, DrainStep(maximumResultBytes, State())) == target
        decreases |buffer|
      {
        ghost var here := State();
        var frameType, payloadLength := FrameKind(buffer), PayloadLength(buffer);
        if frameType == COMPLETE_FRAME {
          if payloadLength != 0 {
            return Threw(BadFrame);
          }
          buffer := buffer[HEADER_BYTES..];
          if |buffer| > 0 {
            return Threw(Trailing);
          }
          complete := true;
          assert target == Step(State(), Parsed(arrowChunks + []));
          break;
        }
        if frameType != ARROW_FRAME || payloadLength == 0 || payloadLength > maximumResultBytes {
          return Threw(BadFrame);
        }
        if payloadLength > |buffer| - HEADER_BYTES {
          assert target == Step(State(), Parsed(arrowChunks + []));
          break;
        }
        arrowBytes := arrowBytes + payloadLength;
        if arrowBytes > maximumResultBytes {
          return Threw(OverBudget);
        }
        ghost var payload := buffer[HEADER_BYTES..HEADER_BYTES + payloadLength];
        ghost var ahead := here.(buffer := buffer[HEADER_BYTES + payloadLength..], arrowBytes := arrowBytes);
        CollectedSnoc(arrowChunks, payload, DrainStep(maximumResultBytes, ahead));
        arrowChunks := arrowChunks + [buffer[HEADER_BYTES..HEADER_BYTES + payloadLength]];
        buffer := buffer[HEADER_BYTES + payloadLength..];
      }
      assert arrowChunks + [] == arrowChunks;
      outcome := Parsed(arrowChunks);
    }

    method Finish() returns (ok: bool)
      ensures ok == FinishSucceeds(State())
    {
      ok := magicRead && complete && |buffer| == 0;
    }
  }
}
