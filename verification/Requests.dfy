/** Requests end to end: the framing of a head selects the decoder that takes exactly the body that was written. */
module Requests {
  import opened Basics
  import P = Payload
  import T = Transfer
  import opened ChunkedGrammar
  import opened Framing
  import opened Head
  import opened HeadRuns

  // ---------------------------------------------------------------- the framing of a request

  lemma FoldLast(version: Version, headers: seq<Header>, h: Header, st: HeadState)
    requires FoldHeaders(Fresh(version), headers) == Some(st)
    ensures FoldHeaders(Fresh(version), headers + [h]) == SetHeader(st, h)
  {
    assert (headers + [h])[..|headers|] == headers;
  }

  /** What a parsed head says of its body follows from its framing. */
  predicate FramedBy(h: Parsed, start: StartLine) {
    h.Whole? ==>
      && h.start == start && FramingOf(start.version, h.headers).Some?
      && RequestLength(start, FramingOf(start.version, h.headers).value) == Some(h.body)
  }

  lemma {:induction false} LinesFraming(p: Parser, start: StartLine, st: HeadState, headers: seq<Header>, input: Bytes)
    requires Stable(p) && FoldHeaders(Fresh(start.version), headers) == Some(st)
    ensures FramedBy(ParseLines(p, start, st, headers, input), start)
    decreases |input|
  {
    var l := p.line(input);
    assert LineAt(p.line, input, []);
    if l.LineParsed? && SetHeader(st, l.header).Some? {
      var st1 := SetHeader(st, l.header).value;
      FoldLast(start.version, headers, l.header, st);
      LinesFraming(p, start, st1, headers + [l.header], input[l.len..]);
      ShiftFramed(ParseLines(p, start, st1, headers + [l.header], input[l.len..]), start, l.len);
    }
  }

  lemma ShiftFramed(h: Parsed, start: StartLine, k: nat)
    requires FramedBy(h, start)
    ensures FramedBy(Shift(k, h), start)
  {}

  /** The body of a head follows from its start line and the framing of its headers. */
  lemma HeadFramed(p: Parser, input: Bytes)
    requires Stable(p) && ParseHead(p, input).Whole?
    ensures var h := ParseHead(p, input);
      && FramingOf(h.start.version, h.headers).Some?
      && RequestLength(h.start, FramingOf(h.start.version, h.headers).value) == Some(h.body)
  {
    var s := p.start(input);
    assert StartAt(p.start, input, []);
    LinesFraming(p, s.start, Fresh(s.start.version), [], input[s.len..]);
  }

  // ---------------------------------------------------------------- the body of a request

  /** What the decoder of a request's body takes from the connection: the body, what is left, and whether it ended. */
  ghost function ReadBody(body: RequestBody, input: Bytes): (Bytes, Bytes, bool)
    requires ValidBody(DecoderOf(body))
  {
    if DecoderOf(body).None? then ([], input, true)
    else
      var d := P.Drain(DecoderOf(body).value, input);
      (d.out, d.rest, d.status.Done?)
  }

  /** How a client writes the body of a request whose head has a framing; none if it writes no body. */
  function WriterFor(framing: PayloadLength): Option<T.Encoding> {
    match framing
    case ChunkedBody => Some(T.ChunkedOut(false))
    case LengthBody(n) => Some(T.LengthOut(n))
    case _ => None
  }

  /** The bytes a client puts behind the head, and whether its body was complete. */
  function BodyWire(framing: PayloadLength, msgs: seq<Bytes>): (Bytes, bool) {
    if WriterFor(framing).None? then ([], true) else T.EncodeBody(WriterFor(framing).value, msgs)
  }

  /** The body of the request. */
  function BodySent(framing: PayloadLength, msgs: seq<Bytes>): Bytes {
    match framing
    case ChunkedBody => T.BodyOf(msgs)
    case LengthBody(n) => if n <= |Flatten(msgs)| then Flatten(msgs)[..n] else Flatten(msgs)
    case _ => []
  }

  /** The connection is handed over: an upgrade, or a `CONNECT` without a body. */
  predicate HandsOver(start: StartLine, framing: PayloadLength) {
    framing.UpgradeBody? || (start.connect && (framing.NoBody? || framing == LengthBody(0)))
  }

  lemma NoBytesSent(msgs: seq<Bytes>)
    ensures T.EncodeBody(T.LengthOut(0), msgs) == ([], true)
  {
    T.LengthRoundTrip(0, msgs, []);
  }

  /**
    A request through writer and reader, for any legal head and any way the body is handed over: if the body that was
    written is complete, the decoder the head selects takes exactly it off the connection and leaves what follows; a
    request without a body takes nothing; and only if the connection is handed over does it take all there is.
  */
  lemma RequestRoundTrip(p: Parser, input: Bytes, msgs: seq<Bytes>, trailing: Bytes)
    requires Stable(p) && ParseHead(p, input).Whole? && forall m :: m in msgs ==> |m| < T.TWO_64
    ensures var h := ParseHead(p, input);
      FramingOf(h.start.version, h.headers).Some? && ValidBody(DecoderOf(h.body)) &&
      var framing := FramingOf(h.start.version, h.headers).value;
      var (wire, ok) := BodyWire(framing, msgs);
      && (ok <==> (framing.LengthBody? ==> |Flatten(msgs)| >= framing.len))
      && if HandsOver(h.start, framing) then ReadBody(h.body, trailing) == (trailing, [], false)
         else ok ==> ReadBody(h.body, wire + trailing) == (BodySent(framing, msgs), trailing, true)
  {
    var h := ParseHead(p, input);
    HeadFramed(p, input);
    WholeIsValid(p, input);
    var framing := FramingOf(h.start.version, h.headers).value;
    CloseExact(trailing);
    match framing
    case ChunkedBody => T.ChunkedRoundTrip(msgs, trailing);
    case LengthBody(n) =>
      T.LengthRoundTrip(n, msgs, trailing);
      if n == 0 {
        NoBytesSent(msgs);
        assert [] + trailing == trailing;
      }
    case _ => assert [] + trailing == trailing;
  }

  /** A `POST` of HTTP/1.0 that does not say how long its body is, is refused. */
  lemma PostNeedsLength(p: Parser, input: Bytes)
    requires Stable(p) && ParseHead(p, input).Whole?
    ensures var h := ParseHead(p, input);
      h.start.version.Http10? && h.start.post ==> FramingOf(h.start.version, h.headers) != Some(NoBody)
  {
    HeadFramed(p, input);
  }

  // ---------------------------------------------------------------- pipelined requests

  lemma {:induction false} LinesStable(p: Parser, start: StartLine, st: HeadState, headers: seq<Header>, a: Bytes,
        b: Bytes)
    requires Stable(p) && ParseLines(p, start, st, headers, a).Whole?
    ensures ParseLines(p, start, st, headers, a + b) == ParseLines(p, start, st, headers, a)
    decreases |a|
  {
    var l := p.line(a);
    assert LineAt(p.line, a, b);
    if l.LineParsed? {
      assert (a + b)[l.len..] == a[l.len..] + b;
      LinesStable(p, start, SetHeader(st, l.header).value, headers + [l.header], a[l.len..], b);
    }
  }

  /** What follows a complete head does not change it. */
  lemma HeadStable(p: Parser, a: Bytes, b: Bytes)
    requires Stable(p) && ParseHead(p, a).Whole?
    ensures ParseHead(p, a + b) == ParseHead(p, a)
  {
    var s := p.start(a);
    assert StartAt(p.start, a, b);
    assert (a + b)[s.len..] == a[s.len..] + b;
    LinesStable(p, s.start, NEW.st.(version := s.start.version), [], a[s.len..], b);
  }

  /** A request as its client writes it: the bytes of the head, and the pieces of the body. */
  datatype Request = Request(head: Bytes, msgs: seq<Bytes>)

  ghost function HeadOf(p: Parser, q: Request): Parsed
    requires Stable(p)
  {
    ParseHead(p, q.head)
  }

  ghost function FramingIn(p: Parser, q: Request): PayloadLength
    requires Stable(p) && HeadOf(p, q).Whole?
  {
    HeadFramed(p, q.head);
    FramingOf(HeadOf(p, q).start.version, HeadOf(p, q).headers).value
  }

  /** The head is a legal one and shorter than the limit, the body is complete, and the connection is kept. */
  ghost predicate Proper(p: Parser, max: nat, q: Request)
    requires Stable(p)
  {
    && HeadOf(p, q).Whole? && HeadOf(p, q).len == |q.head| < max
    && !HandsOver(HeadOf(p, q).start, FramingIn(p, q))
    && BodyWire(FramingIn(p, q), q.msgs).1 && (forall m :: m in q.msgs ==> |m| < T.TWO_64)
  }

  ghost function WireOf(p: Parser, max: nat, q: Request): Bytes
    requires Stable(p) && Proper(p, max, q)
  {
    q.head + BodyWire(FramingIn(p, q), q.msgs).0
  }

  /** What the server is to be given of a request: its head, its body and, if it has one, the body's end. */
  ghost function Delivered(p: Parser, max: nat, q: Request): seq<Out>
    requires Stable(p) && Proper(p, max, q)
  {
    var h := HeadOf(p, q);
    [Start(AnswerOf(h))] + AsOuts(BodySent(FramingIn(p, q), q.msgs))
    + if FramingIn(p, q).ChunkedBody? || (FramingIn(p, q).LengthBody? && FramingIn(p, q).len > 0) then [BodyEnd] else []
  }

  ghost predicate AllProper(p: Parser, max: nat, qs: seq<Request>)
    requires Stable(p)
  {
    forall i :: 0 <= i < |qs| ==> Proper(p, max, qs[i])
  }

  ghost function PipelineWire(p: Parser, max: nat, qs: seq<Request>): Bytes
    requires Stable(p) && AllProper(p, max, qs)
  {
    if qs == [] then [] else WireOf(p, max, qs[0]) + PipelineWire(p, max, qs[1..])
  }

  ghost function AllDelivered(p: Parser, max: nat, qs: seq<Request>): seq<Out>
    requires Stable(p) && AllProper(p, max, qs)
  {
    if qs == [] then [] else Delivered(p, max, qs[0]) + AllDelivered(p, max, qs[1..])
  }

  /** A body that is read to its end, and what follows it. */
  lemma BodyThenRest(p: Parser, max: nat, body: RequestBody, input: Bytes, out: Bytes, trailing: Bytes)
    requires Stable(p) && ValidBody(DecoderOf(body)) && ReadBody(body, input) == (out, trailing, true)
    ensures Rest(p, max, DecoderOf(body), input) ==
      AsOuts(out) + (if DecoderOf(body).Some? then [BodyEnd] else []) + Messages(p, max, trailing)
  {
    if DecoderOf(body).None? {
      assert AsOuts([]) + [] + Messages(p, max, trailing) == Messages(p, max, trailing);
    } else {
      Assoc(AsOuts(out), [BodyEnd], Messages(p, max, trailing));
    }
  }

  lemma HasDecoder(p: Parser, max: nat, q: Request)
    requires Stable(p) && Proper(p, max, q)
    ensures DecoderOf(HeadOf(p, q).body).Some? <==>
      FramingIn(p, q).ChunkedBody? || (FramingIn(p, q).LengthBody? && FramingIn(p, q).len > 0)
  {
    HeadFramed(p, q.head);
  }

  lemma RequestDelivered(p: Parser, max: nat, q: Request, trailing: Bytes)
    requires Stable(p) && Proper(p, max, q)
    ensures Messages(p, max, WireOf(p, max, q) + trailing) == Delivered(p, max, q) + Messages(p, max, trailing)
  {
    var h := HeadOf(p, q);
    var wire := BodyWire(FramingIn(p, q), q.msgs).0;
    var behind := wire + trailing;
    Assoc(q.head, wire, trailing);
    HeadStable(p, q.head, behind);
    HeadNext(p, max, q.head + behind);
    assert (q.head + behind)[|q.head|..] == behind;
    RequestRoundTrip(p, q.head, q.msgs, trailing);
    var sent := BodySent(FramingIn(p, q), q.msgs);
    BodyThenRest(p, max, h.body, behind, sent, trailing);
    HasDecoder(p, max, q);
    var end: seq<Out> := if DecoderOf(h.body).Some? then [BodyEnd] else [];
    Joined(Start(AnswerOf(h)), AsOuts(sent), end, Messages(p, max, trailing));
  }

  lemma Joined(x: Out, a: seq<Out>, b: seq<Out>, c: seq<Out>)
    ensures [x] + (a + b + c) == [x] + a + b + c
  {}

  /** Pipelined requests, whatever follows them: every one with its body, in order. */
  lemma {:induction false} PipelineDelivered(p: Parser, max: nat, qs: seq<Request>, trailing: Bytes)
    requires Stable(p) && AllProper(p, max, qs)
    ensures Messages(p, max, PipelineWire(p, max, qs) + trailing) ==
      AllDelivered(p, max, qs) + Messages(p, max, trailing)
  {
    if qs == [] {
      assert [] + trailing == trailing;
    } else {
      var rest := PipelineWire(p, max, qs[1..]);
      Assoc(WireOf(p, max, qs[0]), rest, trailing);
      RequestDelivered(p, max, qs[0], rest + trailing);
      PipelineDelivered(p, max, qs[1..], trailing);
      Assoc(Delivered(p, max, qs[0]), AllDelivered(p, max, qs[1..]), Messages(p, max, trailing));
    }
  }

  /**
    Requests written one after the other on a connection, without waiting, and followed by anything: however the bytes
    are cut and whenever the decoders are called, the server is given a beginning of them, each with exactly its body;
    no error comes before the last of them; and when the call that is due gives nothing more, all that are there in
    full have been given.
  */
  lemma PipelineRoundTrip(p: Parser, max: nat, qs: seq<Request>, trailing: Bytes, acts: seq<Action>, future: Bytes)
    requires Stable(p) && AllProper(p, max, qs)
    requires Received(acts) + future == PipelineWire(p, max, qs) + trailing
    ensures var (c, all) := (RunConn(p, max, acts), AllDelivered(p, max, qs));
      && (c.outs <= all || all <= c.outs)
      && (!c.ending.Going? ==> all <= c.outs)
      && (future == [] && c.ending.Going? && Idle(p, max, acts) ==> all <= c.outs)
  {
    PipelineDelivered(p, max, qs, trailing);
    EveryHeadAcceptedIffShort(p, max, acts, future);
    if future == [] && RunConn(p, max, acts).ending.Going? && Idle(p, max, acts) {
      assert Received(acts) + [] == Received(acts);
      NothingHeldBack(p, max, acts);
    }
  }

  /** The call that is due gives nothing. */
  ghost predicate Idle(p: Parser, max: nat, acts: seq<Action>)
    requires Stable(p)
  {
    var (c, c') := (RunConn(p, max, acts), RunConn(p, max, acts + [Due(RunConn(p, max, acts))]));
    c'.ending.Going? && c'.outs == c.outs
  }
}
