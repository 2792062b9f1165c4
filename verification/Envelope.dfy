/** Length-prefixed envelopes: the printer, the incremental parser of responses and the blocking
    parser of requests. */
module Envelope {
  import opened Base

  const PREFIX: nat := 5
  const END_STREAM: Byte := 2
  const MAX_LINE: nat := 33554432
  const TWO_TO_32: int := 0x1_0000_0000

  // ---- Printing and reading one envelope ------------------------------------

  /** One flag byte, the length in four bytes, the payload. Lengths wrap at 32 bits. */
  function Wrap(flags: Byte, payload: Bytes): Bytes {
    [flags] + BigEndian(|payload| % TWO_TO_32, 4) + payload
  }

  /** `envelope`, filling a buffer of the right size. */
  method WrapInBuffer(flags: Byte, payload: Bytes) returns (data: Bytes)
    ensures data == Wrap(flags, payload)
  {
    var buffer := new Byte[PREFIX + |payload|](_ => 0);
    buffer[0] := flags;
    var length := BigEndian(|payload| % TWO_TO_32, 4);
    for i := 0 to 4
      invariant buffer[0] == flags && forall k :: 0 <= k < i ==> buffer[1 + k] == length[k]
    {
      buffer[1 + i] := length[i];
    }
    for i := 0 to |payload|
      invariant buffer[0] == flags && (forall k :: 0 <= k < 4 ==> buffer[1 + k] == length[k])
      invariant forall k :: 0 <= k < i ==> buffer[PREFIX + k] == payload[k]
    {
      buffer[PREFIX + i] := payload[i];
    }
    data := buffer[..];
    assert data[1..5] == length && data[5..] == payload;
  }

  datatype Read = More | One(flags: Byte, payload: Bytes, rest: Bytes)

  /** The first envelope of the bytes, once they hold all of it. */
  function ReadOne(b: Bytes): Read {
    if |b| < PREFIX then More
    else
      var length := ValueOf(b[1..PREFIX]);
      if |b| < PREFIX + length then More else One(b[0], b[PREFIX..PREFIX + length], b[PREFIX + length..])
  }

  /** What was printed is read back, whatever follows it. */
  lemma ReadsWrapped(flags: Byte, payload: Bytes, rest: Bytes)
    requires |payload| < TWO_TO_32
    ensures ReadOne(Wrap(flags, payload) + rest) == One(flags, payload, rest)
  {
    Widths();
    BigEndianRoundTrip(|payload|, 4);
    var length := BigEndian(|payload|, 4);
    var b := Wrap(flags, payload) + rest;
    hide BigEndian, ValueOf, Pow256;
    assert b[1..PREFIX] == length;
    assert b[PREFIX..PREFIX + |payload|] == payload && b[PREFIX + |payload|..] == rest;
  }

  /** More bytes do not change an envelope that is already complete. */
  lemma ReadsSame(b: Bytes, more: Bytes)
    requires ReadOne(b).One?
    ensures var r := ReadOne(b); ReadOne(b + more) == One(r.flags, r.payload, r.rest + more)
  {
    hide ValueOf;
    assert (b + more)[1..PREFIX] == b[1..PREFIX];
    var length := ValueOf(b[1..PREFIX]);
    assert (b + more)[PREFIX..PREFIX + length] == b[PREFIX..PREFIX + length];
    assert (b + more)[PREFIX + length..] == b[PREFIX + length..] + more;
  }

  // ---- The incremental parser -----------------------------------------------

  datatype Frame = Message(value: Bytes) | ErrorMessage(value: Bytes) | End(trailer: Bytes)

  /** The parser between two events: bytes not used yet, whether the end was written, whether
      it gave up, and what it has written. */
  datatype Parser = Parser(buffer: Bytes, ended: bool, failed: bool, frames: seq<Frame>)

  /** Takes every complete envelope off the buffer. */
  function Drain(p: Parser): Parser
    decreases |p.buffer|
  {
    match ReadOne(p.buffer)
    case More => p
    case One(flags, payload, rest) =>
      if flags == END_STREAM then Drain(Parser(rest, true, p.failed, p.frames + [End(payload)]))
      else if flags == 0 then Drain(Parser(rest, p.ended, p.failed, p.frames + [Message(payload)]))
      else Parser(rest, p.ended, true, p.frames)
  }

  function Feed(p: Parser, chunk: Bytes): Parser {
    if p.failed then p else Drain(p.(buffer := p.buffer + chunk))
  }

  function FeedAll(p: Parser, chunks: seq<Bytes>): Parser
    decreases |chunks|
  {
    if chunks == [] then p else FeedAll(Feed(p, chunks[0]), chunks[1..])
  }

  /** Draining early or late makes no difference, unless the early bytes are malformed. */
  lemma {:induction false} DrainSplits(p: Parser, more: Bytes)
    requires !Drain(p).failed && !p.failed
    ensures Drain(p.(buffer := p.buffer + more)) == Drain(Drain(p).(buffer := Drain(p).buffer + more))
    decreases |p.buffer|
  {
    match ReadOne(p.buffer)
    case More =>
    case One(flags, payload, rest) =>
      ReadsSame(p.buffer, more);
      if flags == END_STREAM {
        DrainSplits(Parser(rest, true, p.failed, p.frames + [End(payload)]), more);
      } else if flags == 0 {
        DrainSplits(Parser(rest, p.ended, p.failed, p.frames + [Message(payload)]), more);
      }
  }

  lemma {:induction false} DrainedHasNone(p: Parser)
    ensures Drain(p).failed || ReadOne(Drain(p).buffer).More?
    ensures p.failed ==> Drain(p).failed
    decreases |p.buffer|
  {
    match ReadOne(p.buffer)
    case More =>
    case One(flags, payload, rest) =>
      if flags == END_STREAM {
        DrainedHasNone(Parser(rest, true, p.failed, p.frames + [End(payload)]));
      } else if flags == 0 {
        DrainedHasNone(Parser(rest, p.ended, p.failed, p.frames + [Message(payload)]));
      }
  }

  /** A malformed start fails whatever follows, after the same frames. */
  lemma {:induction false} FailureSplits(p: Parser, more: Bytes)
    requires Drain(p).failed && !p.failed
    ensures var q := Drain(p.(buffer := p.buffer + more)); q.failed && q.frames == Drain(p).frames && q.ended == Drain(p).ended
    decreases |p.buffer|
  {
    match ReadOne(p.buffer)
    case More =>
    case One(flags, payload, rest) =>
      ReadsSame(p.buffer, more);
      if flags == END_STREAM {
        FailureSplits(Parser(rest, true, p.failed, p.frames + [End(payload)]), more);
      } else if flags == 0 {
        FailureSplits(Parser(rest, p.ended, p.failed, p.frames + [Message(payload)]), more);
      }
  }

  /** Two parsers that differ at most in bytes no one will look at any more. */
  predicate Same(p: Parser, q: Parser) {
    p.failed == q.failed && p.ended == q.ended && p.frames == q.frames && (!p.failed ==> p.buffer == q.buffer)
  }

  /** The parser is chunk-invariant: it writes the same frames, fails or not, and is left with
      the same bytes, however its input is cut into events. */
  lemma {:induction false} ChunksDoNotMatter(p: Parser, chunks: seq<Bytes>)
    requires !p.failed && ReadOne(p.buffer).More?
    ensures Same(FeedAll(p, chunks), Drain(p.(buffer := p.buffer + Join(chunks))))
    decreases |chunks|
  {
    if chunks == [] {
      assert p.buffer + [] == p.buffer;
    } else {
      var first := p.(buffer := p.buffer + chunks[0]);
      var rest := Join(chunks[1..]);
      assert first.buffer + rest == p.buffer + Join(chunks);
      if Drain(first).failed {
        FailureSplits(first, rest);
        FailedStays(Drain(first), chunks[1..]);
      } else {
        DrainSplits(first, rest);
        DrainedHasNone(first);
        ChunksDoNotMatter(Drain(first), chunks[1..]);
      }
    }
  }

  lemma {:induction false} FailedStays(p: Parser, chunks: seq<Bytes>)
    requires p.failed
    ensures FeedAll(p, chunks) == p
    decreases |chunks|
  {
    if chunks != [] { FailedStays(p, chunks[1..]); }
  }

  // ---- Round trip -----------------------------------------------------------

  function WrapAll(payloads: seq<Bytes>): Bytes {
    if payloads == [] then [] else Wrap(0, payloads[0]) + WrapAll(payloads[1..])
  }

  function Messages(payloads: seq<Bytes>): seq<Frame> {
    if payloads == [] then [] else [Message(payloads[0])] + Messages(payloads[1..])
  }

  predicate Short(payloads: seq<Bytes>, limit: int) {
    forall i :: 0 <= i < |payloads| ==> |payloads[i]| < limit
  }

  /** One envelope in front of the rest. */
  lemma DrainOne(p: Parser, flags: Byte, payload: Bytes, rest: Bytes)
    requires |payload| < TWO_TO_32 && p.buffer == Wrap(flags, payload) + rest && (flags == 0 || flags == END_STREAM)
    ensures Drain(p) == if flags == END_STREAM then Drain(Parser(rest, true, p.failed, p.frames + [End(payload)]))
                        else Drain(Parser(rest, p.ended, p.failed, p.frames + [Message(payload)]))
  {
    hide Wrap, ReadOne;
    ReadsWrapped(flags, payload, rest);
  }

  lemma {:induction false} DrainWrapped(p: Parser, payloads: seq<Bytes>, trailer: Bytes)
    requires Short(payloads, TWO_TO_32) && |trailer| < TWO_TO_32 && p.buffer == WrapAll(payloads) + Wrap(END_STREAM, trailer)
    ensures Drain(p) == Parser([], true, p.failed, p.frames + Messages(payloads) + [End(trailer)])
    decreases |payloads|
  {
    hide Wrap, Drain;
    if payloads == [] {
      assert p.buffer == Wrap(END_STREAM, trailer) + [];
      DrainOne(p, END_STREAM, trailer, []);
      NothingToDrain(Parser([], true, p.failed, p.frames + [End(trailer)]));
      assert p.frames + [] == p.frames;
    } else {
      var rest := WrapAll(payloads[1..]) + Wrap(END_STREAM, trailer);
      assert p.buffer == Wrap(0, payloads[0]) + rest;
      DrainOne(p, 0, payloads[0], rest);
      var q := Parser(rest, p.ended, p.failed, p.frames + [Message(payloads[0])]);
      DrainWrapped(q, payloads[1..], trailer);
      assert q.frames + Messages(payloads[1..]) == p.frames + Messages(payloads);
    }
  }

  lemma NothingToDrain(p: Parser)
    requires p.buffer == []
    ensures Drain(p) == p
  {
  }

  const NEW_PARSER: Parser := Parser([], false, false, [])

  /** Whatever payloads are sent as envelopes and closed by one end-of-stream envelope, and
      however the bytes are cut into events, the parser writes exactly those messages in order
      and then exactly one end, and has nothing left. */
  lemma EnvelopesRoundTrip(payloads: seq<Bytes>, trailer: Bytes, chunks: seq<Bytes>)
    requires Short(payloads, TWO_TO_32) && |trailer| < TWO_TO_32
    requires Join(chunks) == WrapAll(payloads) + Wrap(END_STREAM, trailer)
    ensures FeedAll(NEW_PARSER, chunks) == Parser([], true, false, Messages(payloads) + [End(trailer)])
  {
    hide Wrap, Drain;
    var whole := NEW_PARSER.(buffer := NEW_PARSER.buffer + Join(chunks));
    assert whole.buffer == Join(chunks);
    ChunksDoNotMatter(NEW_PARSER, chunks);
    DrainWrapped(whole, payloads, trailer);
    assert [] + Messages(payloads) + [End(trailer)] == Messages(payloads) + [End(trailer)];
  }

  // ---- Whole streams --------------------------------------------------------

  /** Envelopes one after the other. */
  function Pack(es: seq<(Byte, Bytes)>): Bytes {
    if es == [] then [] else Wrap(es[0].0, es[0].1) + Pack(es[1..])
  }

  /** Envelopes a stream may hold: messages, flag 0, and ends, flag 2. */
  predicate Plain(es: seq<(Byte, Bytes)>) {
    forall i :: 0 <= i < |es| ==> (es[i].0 == 0 || es[i].0 == 2) && |es[i].1| < TWO_TO_32
  }

  function FramesOf(es: seq<(Byte, Bytes)>): seq<Frame> {
    if es == [] then [] else [if es[0].0 == 0 then Message(es[0].1) else End(es[0].1)] + FramesOf(es[1..])
  }

  predicate HasEnd(es: seq<(Byte, Bytes)>) {
    exists i :: 0 <= i < |es| && es[i].0 == 2
  }

  /** The bytes hold no whole envelope. */
  predicate Incomplete(b: Bytes) {
    |b| < 5 || |b| < 5 + ValueOf(b[1..5])
  }

  /** The parser takes the envelopes in order and goes on with what follows them. */
  lemma {:induction false} DrainPacked(p: Parser, es: seq<(Byte, Bytes)>, rest: Bytes)
    requires Plain(es) && p.buffer == Pack(es) + rest
    ensures Drain(p) == Drain(Parser(rest, p.ended || HasEnd(es), p.failed, p.frames + FramesOf(es)))
    decreases |es|
  {
    hide Wrap, ReadOne;
    if es == [] {
      assert p.buffer == rest && p.frames + [] == p.frames;
    } else {
      var more := Pack(es[1..]) + rest;
      ReadsWrapped(es[0].0, es[0].1, more);
      assert p.buffer == Wrap(es[0].0, es[0].1) + more;
      var q := Parser(more, p.ended || es[0].0 == 2, p.failed, p.frames + [if es[0].0 == 0 then Message(es[0].1) else End(es[0].1)]);
      DrainPacked(q, es[1..], rest);
      assert q.frames + FramesOf(es[1..]) == p.frames + FramesOf(es);
      assert HasEnd(es) <==> es[0].0 == 2 || HasEnd(es[1..]) by {
        if es[0].0 != 2 && HasEnd(es) {
          var i :| 0 <= i < |es| && es[i].0 == 2;
          assert es[1..][i - 1].0 == 2;
        }
      }
    }
  }

  lemma NothingWhole(p: Parser)
    requires Incomplete(p.buffer)
    ensures Drain(p) == p
  {
    hide ValueOf;
  }

  lemma BadFlagsFail(p: Parser, flags: Byte, payload: Bytes, more: Bytes)
    requires p.buffer == Wrap(flags, payload) + more && flags != 0 && flags != 2 && |payload| < TWO_TO_32
    ensures Drain(p) == Parser(more, p.ended, true, p.frames)
  {
    hide Wrap, ReadOne;
    ReadsWrapped(flags, payload, more);
  }

  lemma {:induction false} ValueBound(bytes: Bytes)
    ensures ValueOf(bytes) < Pow256(|bytes|)
    decreases |bytes|
  {
    if bytes != [] { ValueBound(bytes[..|bytes| - 1]); }
  }

  lemma {:induction false} BigEndianOfValue(bytes: Bytes)
    ensures BigEndian(ValueOf(bytes), |bytes|) == bytes
    decreases |bytes|
  {
    if bytes != [] {
      var n := |bytes| - 1;
      BigEndianOfValue(bytes[..n]);
      assert ValueOf(bytes) / 256 == ValueOf(bytes[..n]) && ValueOf(bytes) % 256 == bytes[n];
      assert bytes == bytes[..n] + [bytes[n]];
    }
  }

  lemma FitsWord(n: nat)
    requires n < TWO_TO_32
    ensures n % TWO_TO_32 == n
  {
  }

  /** What is read is what would have been printed. */
  lemma ReadIsWrapped(b: Bytes)
    requires ReadOne(b).One?
    ensures var r := ReadOne(b); b == Wrap(r.flags, r.payload) + r.rest && |r.payload| < TWO_TO_32
  {
    var r := ReadOne(b);
    var length := b[1..PREFIX];
    BigEndianOfValue(length);
    ValueBound(length);
    Widths();
    hide BigEndian, ValueOf, Pow256;
    assert |r.payload| == ValueOf(length);
    FitsWord(|r.payload|);
    assert b == [b[0]] + length + b[PREFIX..];
    assert b[PREFIX..] == r.payload + r.rest;
  }

  /** Every stream of bytes is envelopes followed by too few bytes for another or by an envelope with
      other flags. */
  lemma {:induction false} EveryStreamIsPacked(b: Bytes) returns (es: seq<(Byte, Bytes)>, rest: Bytes)
    ensures Plain(es) && b == Pack(es) + rest
    ensures Incomplete(rest) || (ReadOne(rest).One? && ReadOne(rest).flags != 0 && ReadOne(rest).flags != 2
                                 && rest == Wrap(ReadOne(rest).flags, ReadOne(rest).payload) + ReadOne(rest).rest)
    decreases |b|
  {
    if ReadOne(b).More? || (ReadOne(b).flags != 0 && ReadOne(b).flags != 2) {
      es, rest := [], b;
      if ReadOne(b).One? { ReadIsWrapped(b); }
    } else {
      var r := ReadOne(b);
      ReadIsWrapped(b);
      var more;
      more, rest := EveryStreamIsPacked(r.rest);
      es := [(r.flags, r.payload)] + more;
      hide Wrap, ReadOne;
      assert es[1..] == more && Pack(es) == Wrap(r.flags, r.payload) + Pack(more);
    }
  }

  // ---- One call of the host -------------------------------------------------

  const HTTP_OK: nat := 200

  /** The call after a body event. When the body is over and no end was written, what is left
      over is the whole response of a unary call, and an error in a stream. */
  function Sent(p: Parser, streaming: bool, status: nat, body: Bytes, more: bool): Parser {
    var fed := if streaming then Feed(p, body) else p.(buffer := p.buffer + body);
    if fed.failed || more || fed.ended then fed
    else if fed.buffer == [] then fed.(ended := true, frames := fed.frames + [End([])])
    else if streaming then fed.(failed := true)
    else fed.(ended := true,
              frames := fed.frames + [if status != HTTP_OK then ErrorMessage(fed.buffer) else Message(fed.buffer), End([])])
  }

  /** The response side of one call, as the host keeps it. */
  class Call {
    var streaming: bool
    var status: nat
    var buffer: Bytes
    var ended: bool
    var failed: bool
    var frames: seq<Frame>

    constructor ()
      ensures View() == NEW_PARSER && status == HTTP_OK && !streaming
    {
      streaming, status, buffer, ended, failed, frames := false, HTTP_OK, [], false, false, [];
    }

    function View(): Parser
      reads this
    {
      Parser(buffer, ended, failed, frames)
    }

    /** The start of the response. */
    method SendStart(code: nat, connectStream: bool)
      modifies this
      ensures View() == old(View()) && status == code && streaming == connectStream
    {
      status, streaming := code, connectStream;
    }

    /** The loop that takes complete envelopes off the buffer. */
    method TakeEnvelopes()
      requires !failed
      modifies this
      ensures View() == Drain(old(View())) && status == old(status) && streaming == old(streaming)
    {
      while |buffer| >= PREFIX
        invariant Drain(View()) == Drain(old(View())) && !failed
        invariant status == old(status) && streaming == old(streaming)
        decreases |buffer|
      {
        var flags, length := buffer[0], ValueOf(buffer[1..PREFIX]);
        if |buffer| < PREFIX + length { break; }
        var payload := buffer[PREFIX..PREFIX + length];
        buffer := buffer[PREFIX + length..];
        if flags == END_STREAM {
          frames := frames + [End(payload)];
          ended := true;
        } else if flags == 0 {
          frames := frames + [Message(payload)];
        } else {
          failed := true;
          return;
        }
      }
    }

    /** A body event. A call that has failed gets no further events. */
    method SendBody(body: Bytes, more: bool)
      requires !failed
      modifies this
      ensures View() == Sent(old(View()), streaming, status, body, more)
      ensures status == old(status) && streaming == old(streaming)
    {
      buffer := buffer + body;
      if streaming { TakeEnvelopes(); }
      if failed { return; }
      if !more && !ended {
        if buffer != [] {
          if streaming {
            failed := true;
            return;
          }
          frames := frames + [if status != HTTP_OK then ErrorMessage(buffer) else Message(buffer)];
        }
        frames := frames + [End([])];
        ended := true;
      }
    }

    /** The events of a whole response, one after the other. */
    method SendAll(chunks: seq<Bytes>)
      requires View() == NEW_PARSER && chunks != []
      modifies this
      ensures status == old(status) && streaming == old(streaming)
      ensures View() == After(chunks, streaming, status)
    {
      hide Drain;
      var n := |chunks| - 1;
      for i := 0 to |chunks|
        invariant status == old(status) && streaming == old(streaming)
        invariant i <= n && streaming ==> View() == FeedAll(NEW_PARSER, chunks[..i])
        invariant i <= n && !streaming ==> View() == NEW_PARSER.(buffer := Join(chunks[..i]))
        invariant i > n ==> View() == After(chunks, streaming, status)
      {
        if failed {
          FailedFeed(chunks, i);
          break;
        }
        SendBody(chunks[i], i < n);
        FeedMore(NEW_PARSER, chunks[..i], chunks[i]);
        JoinMore(chunks[..i], chunks[i]);
        assert chunks[..i] + [chunks[i]] == chunks[..i + 1];
      }
    }

    /** A whole response in events. A stream gives the messages and ends it holds, in order, with
        exactly one end if it was closed by one or by nothing, and fails on anything else; a unary
        response gives exactly its body and one end. */
    method Respond(chunks: seq<Bytes>)
      requires View() == NEW_PARSER && chunks != []
      modifies this
      ensures status == old(status) && streaming == old(streaming)
      ensures streaming ==> StreamOf(View(), Join(chunks))
      ensures streaming ==> forall payloads, trailer ::
                Short(payloads, TWO_TO_32) && |trailer| < TWO_TO_32 && Join(chunks) == WrapAll(payloads) + Wrap(END_STREAM, trailer) ==>
                  View() == Parser([], true, false, Messages(payloads) + [End(trailer)])
      ensures !streaming && Join(chunks) != [] ==>
                frames == [if status == 200 then Message(Join(chunks)) else ErrorMessage(Join(chunks)), End([])] && ended && !failed
      ensures !streaming && Join(chunks) == [] ==> frames == [End([])] && ended && !failed
    {
      SendAll(chunks);
      if streaming { StreamEnds(chunks, status); } else { UnaryEnds(chunks, status); }
      hide After, StreamOf;
      if streaming {
        forall payloads, trailer | Short(payloads, TWO_TO_32) && |trailer| < TWO_TO_32 && Join(chunks) == WrapAll(payloads) + Wrap(END_STREAM, trailer)
          ensures View() == Parser([], true, false, Messages(payloads) + [End(trailer)])
        {
          ClosedStreamEnds(chunks, status, payloads, trailer);
        }
      }
    }
  }

  /** The parser after all events of a response. */
  function After(chunks: seq<Bytes>, streaming: bool, status: nat): Parser
    requires chunks != []
  {
    var n := |chunks| - 1;
    var before := if streaming then FeedAll(NEW_PARSER, chunks[..n]) else NEW_PARSER.(buffer := Join(chunks[..n]));
    if before.failed then before else Sent(before, streaming, status, chunks[n], false)
  }

  /** How a stream with these bytes ends: with the messages and ends they hold, in order, and one
      more end if they hold none and nothing is left over; what is left over without an end, and an
      envelope with any other flags, make the call fail. */
  ghost predicate StreamOf(p: Parser, body: Bytes) {
    && (forall es, rest ::
          Plain(es) && Incomplete(rest) && body == Pack(es) + rest ==>
            && p.frames == FramesOf(es) + (if !HasEnd(es) && rest == [] then [End([])] else [])
            && p.failed == (!HasEnd(es) && rest != [])
            && p.ended == (HasEnd(es) || rest == []))
    && (forall es, flags, payload, more ::
          Plain(es) && flags != 0 && flags != 2 && |payload| < TWO_TO_32 && body == Pack(es) + (Wrap(flags, payload) + more) ==>
            p.failed && p.frames == FramesOf(es))
  }

  /** The end of a stream, from the parser fed with all of it. */
  lemma AfterFed(chunks: seq<Bytes>, status: nat) returns (fed: Parser)
    requires chunks != []
    ensures Same(fed, Drain(NEW_PARSER.(buffer := Join(chunks))))
    ensures After(chunks, true, status) ==
              if fed.failed || fed.ended then fed
              else if fed.buffer == [] then fed.(ended := true, frames := fed.frames + [End([])])
              else fed.(failed := true)
  {
    hide Drain, Join;
    var n := |chunks| - 1;
    assert chunks[..n] + [chunks[n]] == chunks;
    FeedMore(NEW_PARSER, chunks[..n], chunks[n]);
    fed := FeedAll(NEW_PARSER, chunks);
    assert NEW_PARSER.buffer + Join(chunks) == Join(chunks);
    ChunksDoNotMatter(NEW_PARSER, chunks);
  }

  lemma StreamEnds(chunks: seq<Bytes>, status: nat)
    requires chunks != []
    ensures StreamOf(After(chunks, true, status), Join(chunks))
  {
    hide Drain, Wrap, Pack, Plain, Incomplete, HasEnd, FramesOf, Join, After;
    var fed := AfterFed(chunks, status);
    var whole := NEW_PARSER.(buffer := Join(chunks));
    var p := After(chunks, true, status);
    forall es, rest | Plain(es) && Incomplete(rest) && Join(chunks) == Pack(es) + rest
      ensures p.frames == FramesOf(es) + (if !HasEnd(es) && rest == [] then [End([])] else [])
      ensures p.failed == (!HasEnd(es) && rest != []) && p.ended == (HasEnd(es) || rest == [])
    {
      DrainPacked(whole, es, rest);
      assert [] + FramesOf(es) == FramesOf(es) && FramesOf(es) + [] == FramesOf(es);
      NothingWhole(Parser(rest, HasEnd(es), false, FramesOf(es)));
    }
    forall es, flags, payload, more |
      Plain(es) && flags != 0 && flags != 2 && |payload| < TWO_TO_32 && Join(chunks) == Pack(es) + (Wrap(flags, payload) + more)
      ensures p.failed && p.frames == FramesOf(es)
    {
      DrainPacked(whole, es, Wrap(flags, payload) + more);
      assert [] + FramesOf(es) == FramesOf(es);
      BadFlagsFail(Parser(Wrap(flags, payload) + more, HasEnd(es), false, FramesOf(es)), flags, payload, more);
    }
  }

  lemma ClosedStreamEnds(chunks: seq<Bytes>, status: nat, payloads: seq<Bytes>, trailer: Bytes)
    requires chunks != [] && Short(payloads, TWO_TO_32) && |trailer| < TWO_TO_32
    requires Join(chunks) == WrapAll(payloads) + Wrap(END_STREAM, trailer)
    ensures After(chunks, true, status) == Parser([], true, false, Messages(payloads) + [End(trailer)])
  {
    hide Drain, Wrap, WrapAll, Join, After;
    var fed := AfterFed(chunks, status);
    DrainWrapped(NEW_PARSER.(buffer := Join(chunks)), payloads, trailer);
    assert [] + Messages(payloads) + [End(trailer)] == Messages(payloads) + [End(trailer)];
  }

  lemma UnaryEnds(chunks: seq<Bytes>, status: nat)
    requires chunks != []
    ensures var p := After(chunks, false, status);
            && p.ended && !p.failed
            && p.frames == (if Join(chunks) == [] then [End([])]
                            else [if status == 200 then Message(Join(chunks)) else ErrorMessage(Join(chunks)), End([])])
  {
    var n := |chunks| - 1;
    assert chunks[..n] + [chunks[n]] == chunks;
    JoinMore(chunks[..n], chunks[n]);
  }

  lemma {:induction false} FeedMore(p: Parser, chunks: seq<Bytes>, chunk: Bytes)
    ensures FeedAll(p, chunks + [chunk]) == Feed(FeedAll(p, chunks), chunk)
    decreases |chunks|
  {
    if chunks == [] {
      assert chunks + [chunk] == [chunk];
      assert FeedAll(Feed(p, chunk), []) == Feed(p, chunk);
    } else {
      assert (chunks + [chunk])[1..] == chunks[1..] + [chunk];
      FeedMore(Feed(p, chunks[0]), chunks[1..], chunk);
    }
  }

  /** Once failed, the parser stays as it is for the rest of the events. */
  lemma {:induction false} FailedFeed(chunks: seq<Bytes>, i: nat)
    requires i < |chunks| && FeedAll(NEW_PARSER, chunks[..i]).failed
    ensures FeedAll(NEW_PARSER, chunks[..|chunks| - 1]) == FeedAll(NEW_PARSER, chunks[..i])
    decreases |chunks| - i
  {
    if i < |chunks| - 1 {
      FeedMore(NEW_PARSER, chunks[..i], chunks[i]);
      assert chunks[..i] + [chunks[i]] == chunks[..i + 1];
      FailedFeed(chunks, i + 1);
    }
  }

  // ---- The blocking parser of requests --------------------------------------

  datatype Upstream = Value(body: Bytes) | HalfClose | Cancel

  /** What `sendRequest` sends for a streaming request body. */
  function Requests(b: Bytes): seq<Upstream>
    decreases |b|
  {
    if b == [] then [HalfClose]
    else
      match ReadOne(b)
      case More => [Cancel]
      case One(flags, payload, rest) =>
        if flags != 0 || |payload| >= MAX_LINE then [Cancel] else [Value(payload)] + Requests(rest)
  }

  function Values(payloads: seq<Bytes>): seq<Upstream> {
    if payloads == [] then [] else [Value(payloads[0])] + Values(payloads[1..])
  }

  /** Reads prefix and payload in turn until the body ends or is not acceptable. */
  method SendRequest(body: Bytes) returns (sent: seq<Upstream>)
    ensures sent == Requests(body)
  {
    sent := [];
    var rest := body;
    hide Requests, ValueOf;
    while rest != []
      invariant sent + Requests(rest) == Requests(body)
      decreases |rest|
    {
      ShortIsCanceled(rest);
      if |rest| < PREFIX { return sent + [Cancel]; }
      var size := ValueOf(rest[1..PREFIX]);
      if rest[0] != 0 || size >= MAX_LINE {
        CancelAtPrefix(rest);
        return sent + [Cancel];
      }
      if |rest| < PREFIX + size { return sent + [Cancel]; }
      RequestStep(rest);
      var value := Value(rest[PREFIX..PREFIX + size]);
      rest := rest[PREFIX + size..];
      assert sent + ([value] + Requests(rest)) == sent + [value] + Requests(rest);
      sent := sent + [value];
    }
    NoMoreRequests();
    sent := sent + [HalfClose];
  }

  lemma NoMoreRequests()
    ensures Requests([]) == [HalfClose]
  {
  }

  lemma ShortIsCanceled(b: Bytes)
    requires b != []
    ensures |b| < PREFIX || (b[0] == 0 && |b| < PREFIX + ValueOf(b[1..PREFIX])) ==> Requests(b) == [Cancel]
  {
  }

  lemma RequestStep(b: Bytes)
    requires |b| >= PREFIX && b[0] == 0 && ValueOf(b[1..PREFIX]) < MAX_LINE && |b| >= PREFIX + ValueOf(b[1..PREFIX])
    ensures var size := ValueOf(b[1..PREFIX]);
            Requests(b) == [Value(b[PREFIX..PREFIX + size])] + Requests(b[PREFIX + size..])
  {
    hide ValueOf;
  }

  /** A bad prefix ends the request whether or not its payload is there. */
  lemma CancelAtPrefix(b: Bytes)
    requires |b| >= PREFIX && (b[0] != 0 || ValueOf(b[1..PREFIX]) >= MAX_LINE)
    ensures Requests(b) == [Cancel]
  {
  }

  lemma {:induction false} RequestsOfWrapped(payloads: seq<Bytes>)
    requires Short(payloads, 33554432)
    ensures Requests(WrapAll(payloads)) == Values(payloads) + [HalfClose]
    decreases |payloads|
  {
    hide ReadOne, Wrap;
    if payloads != [] {
      ReadsWrapped(0, payloads[0], WrapAll(payloads[1..]));
      WrapNotEmpty(payloads[0], WrapAll(payloads[1..]));
      RequestsOfWrapped(payloads[1..]);
      assert [Value(payloads[0])] + (Values(payloads[1..]) + [HalfClose]) == Values(payloads) + [HalfClose];
    }
  }

  /** A streaming request is closed normally exactly when its body is a sequence of plain
      envelopes below the line limit, and then exactly their payloads were sent. */
  lemma {:induction false} ClosedRequestsAreEnvelopes(b: Bytes) returns (payloads: seq<Bytes>)
    requires HalfClose in Requests(b)
    ensures Short(payloads, 33554432) && b == WrapAll(payloads) && Requests(b) == Values(payloads) + [HalfClose]
    decreases |b|
  {
    if b == [] {
      payloads := [];
    } else {
      ReadIsWrapped(b);
      var r := ReadOne(b);
      var rest := ClosedRequestsAreEnvelopes(r.rest);
      payloads := [r.payload] + rest;
      assert payloads[1..] == rest;
      RequestsOfWrapped(payloads);
    }
  }

  /** Any other streaming request is canceled, after exactly the payloads of the plain envelopes it
      starts with: what follows them is cut off, has other flags or is not below the limit. */
  lemma {:induction false} CanceledRequestsExactly(b: Bytes) returns (payloads: seq<Bytes>, rest: Bytes)
    requires HalfClose !in Requests(b)
    ensures Short(payloads, 33554432) && b == WrapAll(payloads) + rest && Requests(b) == Values(payloads) + [Cancel]
    ensures rest != [] && (Incomplete(rest) || rest[0] != 0 || ValueOf(rest[1..5]) >= 33554432)
    decreases |b|
  {
    var r := ReadOne(b);
    if r.More? || r.flags != 0 || |r.payload| >= MAX_LINE {
      payloads, rest := [], b;
    } else {
      ReadIsWrapped(b);
      assert Requests(b) == [Value(r.payload)] + Requests(r.rest);
      var more;
      more, rest := CanceledRequestsExactly(r.rest);
      payloads := [r.payload] + more;
      assert payloads[1..] == more && [Value(r.payload)] + (Values(more) + [Cancel]) == Values(payloads) + [Cancel];
      hide Wrap;
      assert Wrap(0, r.payload) + (WrapAll(more) + rest) == WrapAll(payloads) + rest;
    }
  }

  lemma WrapNotEmpty(payload: Bytes, rest: Bytes)
    ensures Wrap(0, payload) + rest != []
  {
  }
}
