/** The framed result stream as a language of byte strings: a magic prefix, length-prefixed
    Arrow frames, and one empty completion frame. Both the Python writer and the TypeScript
    parser are stated against the functions of this module. */
module Wire {
  newtype byte = b: int | 0 <= b < 256
  type Bytes = seq<byte>

  // "SNOWGLOBE-ARROW-STREAM" followed by version byte 1
  const MAGIC: Bytes := [0x53, 0x4e, 0x4f, 0x57, 0x47, 0x4c, 0x4f, 0x42, 0x45, 0x2d, 0x41, 0x52,
                         0x52, 0x4f, 0x57, 0x2d, 0x53, 0x54, 0x52, 0x45, 0x41, 0x4d, 0x01]
  const HEADER_BYTES: nat := 9
  const ARROW_FRAME: byte := 1
  const COMPLETE_FRAME: byte := 2
  const LENGTH_LIMIT: nat := 0x1_0000_0000_0000_0000

  function Concat(parts: seq<Bytes>): Bytes {
    if parts == [] then [] else parts[0] + Concat(parts[1..])
  }

  lemma {:induction false} ConcatAppend(parts: seq<Bytes>, more: seq<Bytes>)
    ensures Concat(parts + more) == Concat(parts) + Concat(more)
  {
    if parts == [] {
      assert parts + more == more;
    } else {
      assert (parts + more)[1..] == parts[1..] + more;
      ConcatAppend(parts[1..], more);
    }
  }

  lemma ConcatSnoc(parts: seq<Bytes>, last: Bytes)
    ensures Concat(parts + [last]) == Concat(parts) + last
  {
    ConcatAppend(parts, [last]);
    assert Concat([last]) == last + Concat([last][1..]) == last;
  }

  lemma Assoc(a: Bytes, b: Bytes, c: Bytes)
    ensures a + b + c == a + (b + c)
  {
  }

  /** `s` splits at the end of a prefix of itself. */
  lemma SplitPrefix(prefix: Bytes, s: Bytes, rest: Bytes)
    requires |prefix| <= |s| && s + rest == prefix + (s + rest)[|prefix|..]
    ensures s[..|prefix|] == prefix
    ensures s == prefix + s[|prefix|..]
    ensures s[|prefix|..] + rest == (s + rest)[|prefix|..]
  {
    assert s[..|prefix|] == (s + rest)[..|prefix|];
  }

  // ----- unsigned big-endian integers (struct format Q under ">", DataView.getBigUint64) -----

  function Pow256(width: nat): (p: nat)
    ensures p > 0
  {
    if width == 0 then 1 else 256 * Pow256(width - 1)
  }

  function BigEndian(n: nat, width: nat): (bs: Bytes)
    ensures |bs| == width
  {
    if width == 0 then [] else BigEndian(n / 256, width - 1) + [(n % 256) as byte]
  }

  function FromBigEndian(bs: Bytes): nat {
    if bs == [] then 0 else 256 * FromBigEndian(bs[..|bs| - 1]) + bs[|bs| - 1] as nat
  }

  lemma {:induction false} DecodeBigEndian(n: nat, width: nat)
    requires n < Pow256(width)
    ensures FromBigEndian(BigEndian(n, width)) == n
  {
    if width > 0 {
      DecodeBigEndian(n / 256, width - 1);
      var bs := BigEndian(n, width);
      assert bs[..width - 1] == BigEndian(n / 256, width - 1);
    }
  }

  lemma {:induction false} EncodeBigEndian(bs: Bytes)
    ensures FromBigEndian(bs) < Pow256(|bs|)
    ensures BigEndian(FromBigEndian(bs), |bs|) == bs
  {
    if bs != [] {
      EncodeBigEndian(bs[..|bs| - 1]);
      var n := FromBigEndian(bs);
      assert n / 256 == FromBigEndian(bs[..|bs| - 1]) && n % 256 == bs[|bs| - 1] as nat;
    }
  }

  /** The most significant byte comes first. */
  lemma {:induction false} BigEndianByte(n: nat, width: nat, i: nat)
    requires i < width
    ensures BigEndian(n, width)[i] as nat == n / Pow256(width - 1 - i) % 256
  {
    if i < width - 1 {
      BigEndianByte(n / 256, width - 1, i);
      DivideTwice(n, Pow256(width - 2 - i));
    }
  }

  lemma DivideTwice(n: nat, p: nat)
    requires p > 0
    ensures n / 256 / p == n / (256 * p)
  {
    var q, r := n / 256 / p, n / 256 % p;
    assert n / 256 == q * p + r;
    assert n == (q * p + r) * 256 + n % 256 == q * (256 * p) + (r * 256 + n % 256);
    assert r * 256 + n % 256 < 256 * p;
    Quotient(n, 256 * p, q, r * 256 + n % 256);
  }

  lemma Quotient(n: nat, d: nat, q: nat, r: nat)
    requires d > 0 && n == q * d + r && r < d
    ensures n / d == q
  {
    Multiple(n / d - q, d);
    assert (n / d - q) * d == r - n % d;
  }

  lemma Multiple(k: int, d: int)
    requires d > 0
    ensures k >= 1 ==> k * d >= d
    ensures k <= -1 ==> k * d <= -d
  {
    if k >= 1 {
      assert (k - 1) * d >= 0;
    } else if k <= -1 {
      assert (-k - 1) * d >= 0;
    }
  }

  lemma LengthLimit()
    ensures Pow256(8) == LENGTH_LIMIT
  {
    assert Pow256(4) == 0x1_0000_0000;
    assert Pow256(8) == 256 * Pow256(7) == 65536 * Pow256(6) == 16777216 * Pow256(5);
  }

  // ----- frames -----

  function Frame(kind: byte, payload: Bytes): (frame: Bytes)
    ensures |frame| == HEADER_BYTES + |payload|
  {
    [kind] + BigEndian(|payload|, 8) + payload
  }

  function FrameKind(buffer: Bytes): byte
    requires |buffer| >= HEADER_BYTES
  {
    buffer[0]
  }

  function PayloadLength(buffer: Bytes): nat
    requires |buffer| >= HEADER_BYTES
  {
    FromBigEndian(buffer[1..HEADER_BYTES])
  }

  /** A frame byte for byte: its kind, its length in eight bytes, most significant first, and its payload. */
  lemma FrameLayout(kind: byte, payload: Bytes)
    ensures var frame := Frame(kind, payload);
            && |frame| == 9 + |payload| && frame[0] == kind && frame[9..] == payload
            && forall i :: 1 <= i < 9 ==> frame[i] as nat == |payload| / Pow256(8 - i) % 256
  {
    var frame := Frame(kind, payload);
    forall i | 1 <= i < 9 ensures frame[i] as nat == |payload| / Pow256(8 - i) % 256 {
      BigEndianByte(|payload|, 8, i - 1);
      assert frame[i] == BigEndian(|payload|, 8)[i - 1];
    }
    hide Pow256;
    hide BigEndian;
  }

  /** A stream is the magic text, a version byte of one, one frame of kind 1 for every payload, and an empty
      frame of kind 2. */
  lemma StreamLayout(payloads: seq<Bytes>)
    ensures var stream, text := EncodeStream(payloads), "SNOWGLOBE-ARROW-STREAM";
            && |stream| >= 32 && (forall i :: 0 <= i < 22 ==> stream[i] as int == text[i] as int) && stream[22] == 1
            && stream[23..|stream| - 9] == ArrowFrames(payloads)
            && stream[|stream| - 9..] == Frame(2, [])
    ensures ArrowFrames(payloads) == if payloads == [] then [] else Frame(1, payloads[0]) + ArrowFrames(payloads[1..])
  {
    MagicText();
    var frames := ArrowFrames(payloads);
    assert COMPLETION == Frame(2, []);
    hide ArrowFrames;
    hide MAGIC;
    hide COMPLETION;
    hide Frame;
    Between(MAGIC, frames, COMPLETION);
  }

  lemma Between(first: Bytes, middle: Bytes, last: Bytes)
    ensures var all := first + middle + last;
            && (forall i :: 0 <= i < |first| ==> all[i] == first[i])
            && all[|first|..|all| - |last|] == middle && all[|all| - |last|..] == last
  {
  }

  lemma MagicText()
    ensures |MAGIC| == 23 && MAGIC[22] == 1 && forall i :: 0 <= i < 22 ==> MAGIC[i] as int == "SNOWGLOBE-ARROW-STREAM"[i] as int
  {
  }

  lemma ReadHeader(kind: byte, payload: Bytes, rest: Bytes)
    requires |payload| < LENGTH_LIMIT
    ensures FrameKind(Frame(kind, payload) + rest) == kind
    ensures PayloadLength(Frame(kind, payload) + rest) == |payload|
    ensures (Frame(kind, payload) + rest)[HEADER_BYTES..HEADER_BYTES + |payload|] == payload
    ensures (Frame(kind, payload) + rest)[HEADER_BYTES + |payload|..] == rest
  {
    LengthLimit();
    DecodeBigEndian(|payload|, 8);
    hide FromBigEndian;
    hide BigEndian;
    assert (Frame(kind, payload) + rest)[1..HEADER_BYTES] == BigEndian(|payload|, 8);
  }

  /** A header only depends on the first nine bytes. */
  lemma HeaderOfPrefix(buffer: Bytes, rest: Bytes)
    requires |buffer| >= HEADER_BYTES
    ensures FrameKind(buffer + rest) == FrameKind(buffer)
    ensures PayloadLength(buffer + rest) == PayloadLength(buffer)
  {
    assert (buffer + rest)[1..HEADER_BYTES] == buffer[1..HEADER_BYTES];
  }

  /** Reading a frame back out of a buffer and re-encoding it gives the same bytes. */
  lemma RebuildFrame(buffer: Bytes)
    requires |buffer| >= HEADER_BYTES
    requires PayloadLength(buffer) <= |buffer| - HEADER_BYTES
    ensures var n := PayloadLength(buffer);
            Frame(FrameKind(buffer), buffer[HEADER_BYTES..HEADER_BYTES + n]) + buffer[HEADER_BYTES + n..] == buffer
  {
    hide FromBigEndian;
    hide BigEndian;
    hide Pow256;
    EncodeBigEndian(buffer[1..HEADER_BYTES]);
    var n := PayloadLength(buffer);
    Rejoined(buffer, HEADER_BYTES, n);
  }

  lemma Rejoined(buffer: Bytes, header: nat, n: nat)
    requires 1 <= header && header + n <= |buffer|
    ensures [buffer[0]] + buffer[1..header] + buffer[header..header + n] + buffer[header + n..] == buffer
  {
  }

  // ----- streams -----

  function ArrowFrames(payloads: seq<Bytes>): Bytes {
    if payloads == [] then [] else Frame(ARROW_FRAME, payloads[0]) + ArrowFrames(payloads[1..])
  }

  const COMPLETION: Bytes := Frame(COMPLETE_FRAME, [])

  function EncodeStream(payloads: seq<Bytes>): Bytes {
    MAGIC + ArrowFrames(payloads) + COMPLETION
  }

  /** The payload sequences a stream with the given budget may carry. */
  ghost predicate WellFormed(payloads: seq<Bytes>, maximum: nat) {
    && (forall i :: 0 <= i < |payloads| ==> payloads[i] != [])
    && |Concat(payloads)| <= maximum
  }

  lemma {:induction false} ArrowFramesAppend(payloads: seq<Bytes>, more: seq<Bytes>)
    ensures ArrowFrames(payloads + more) == ArrowFrames(payloads) + ArrowFrames(more)
  {
    if payloads == [] {
      assert payloads + more == more;
    } else {
      assert (payloads + more)[1..] == payloads[1..] + more;
      ArrowFramesAppend(payloads[1..], more);
    }
  }

  lemma {:induction false} FramesLength(payloads: seq<Bytes>)
    ensures |ArrowFrames(payloads)| == HEADER_BYTES * |payloads| + |Concat(payloads)|
  {
    if payloads != [] {
      FramesLength(payloads[1..]);
    }
  }

  lemma {:induction false} NonEmptyCount(payloads: seq<Bytes>)
    requires forall i :: 0 <= i < |payloads| ==> payloads[i] != []
    ensures |payloads| <= |Concat(payloads)|
  {
    if payloads != [] {
      NonEmptyCount(payloads[1..]);
    }
  }

  /** What follows the magic prefix. */
  function Tail(payloads: seq<Bytes>): Bytes {
    ArrowFrames(payloads) + COMPLETION
  }

  lemma TailStart(payloads: seq<Bytes>)
    ensures Tail(payloads) == if payloads == [] then COMPLETION
                              else Frame(ARROW_FRAME, payloads[0]) + Tail(payloads[1..])
    ensures Tail(payloads)[0] == if payloads == [] then COMPLETE_FRAME else ARROW_FRAME
  {
  }

  lemma DropCommonPrefix(m: Bytes, a: Bytes, b: Bytes)
    requires m + a <= m + b
    ensures a <= b
  {
    assert a == (m + a)[|m|..] && b == (m + b)[|m|..];
  }

  lemma StreamIsMagicThenTail(payloads: seq<Bytes>)
    ensures EncodeStream(payloads) == MAGIC + Tail(payloads)
  {
    hide ArrowFrames;
    hide MAGIC;
    Assoc(MAGIC, ArrowFrames(payloads), COMPLETION);
  }

  lemma TailAppend(payloads: seq<Bytes>, more: seq<Bytes>)
    ensures ArrowFrames(payloads) + Tail(more) == Tail(payloads + more)
  {
    hide ArrowFrames;
    hide COMPLETION;
    ArrowFramesAppend(payloads, more);
    Assoc(ArrowFrames(payloads), ArrowFrames(more), COMPLETION);
  }

  lemma FramesAppendRest(payloads: seq<Bytes>, more: seq<Bytes>, rest: Bytes)
    ensures ArrowFrames(payloads) + (ArrowFrames(more) + rest) == ArrowFrames(payloads + more) + rest
  {
    hide ArrowFrames;
    ArrowFramesAppend(payloads, more);
    Assoc(ArrowFrames(payloads), ArrowFrames(more), rest);
  }

  /** Every payload's length fits the eight bytes of a frame header. */
  ghost predicate Framable(payloads: seq<Bytes>) {
    forall i :: 0 <= i < |payloads| ==> |payloads[i]| < LENGTH_LIMIT
  }

  /** No payload list is encoded by a proper prefix of another's encoding, and none shares its
      encoding: framed streams are prefix-free, hence uniquely decodable. */
  lemma {:induction false} StreamsArePrefixFree(ps: seq<Bytes>, qs: seq<Bytes>)
    requires Framable(ps) && Framable(qs)
    requires EncodeStream(ps) <= EncodeStream(qs)
    ensures ps == qs
  {
    StreamIsMagicThenTail(ps);
    StreamIsMagicThenTail(qs);
    DropCommonPrefix(MAGIC, Tail(ps), Tail(qs));
    TailsArePrefixFree(ps, qs);
  }

  lemma {:induction false} TailsArePrefixFree(ps: seq<Bytes>, qs: seq<Bytes>)
    requires Framable(ps) && Framable(qs)
    requires Tail(ps) <= Tail(qs)
    ensures ps == qs
  {
    TailStart(ps);
    TailStart(qs);
    hide Tail;
    hide Frame;
    hide PayloadLength;
    hide FrameKind;
    assert Tail(ps)[0] == Tail(qs)[0];
    if ps != [] {
      var extra := Tail(qs)[|Tail(ps)|..];
      Assoc(Frame(ARROW_FRAME, ps[0]), Tail(ps[1..]), extra);
      assert Tail(qs) == Tail(ps) + extra;
      ReadHeader(ARROW_FRAME, ps[0], Tail(ps[1..]) + extra);
      ReadHeader(ARROW_FRAME, qs[0], Tail(qs[1..]));
      TailsArePrefixFree(ps[1..], qs[1..]);
      assert ps == [ps[0]] + ps[1..] && qs == [qs[0]] + qs[1..];
    }
  }

  lemma {:induction false} SmallIsFramable(payloads: seq<Bytes>)
    requires |Concat(payloads)| < LENGTH_LIMIT
    ensures Framable(payloads)
  {
    if payloads != [] {
      SmallIsFramable(payloads[1..]);
      assert forall i :: 0 < i < |payloads| ==> payloads[i] == payloads[1..][i - 1];
    }
  }

  /** Frames without their completion contain no complete stream, not even of other payloads. */
  lemma UnfinishedIsNoStream(ps: seq<Bytes>, sent: seq<Bytes>)
    requires Framable(ps) && Framable(sent)
    ensures !(EncodeStream(ps) <= MAGIC + ArrowFrames(sent))
  {
    hide ArrowFrames;
    hide MAGIC;
    assert |COMPLETION| > 0;
    hide COMPLETION;
    var unfinished := MAGIC + ArrowFrames(sent);
    assert EncodeStream(sent) == unfinished + COMPLETION;
    if EncodeStream(ps) <= unfinished {
      StreamsArePrefixFree(ps, sent);
    }
  }
}
