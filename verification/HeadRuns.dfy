/**
  Requests over a whole connection: the head decoder and the payload decoders it selects take turns on one buffer,
  message after message.
*/
module HeadRuns {
  import opened Basics
  import P = Payload
  import opened Framing
  import opened Head

  type Bytes = P.Bytes

  /** Bytes arrive, the head decoder is called, or the decoder of the current body is. */
  datatype Action = Feed(data: Bytes) | PollHead | PollBody

  /** What the connection gives its owner; the pieces in which a body comes do not matter. */
  datatype Out = Start(head: Answer) | Byte(b: P.u8) | BodyEnd

  datatype Ending = Going | HeadFailed(answer: Answer) | BodyFailed

  /**
    The cell of the head decoder and the buffer; the decoder of the current body, if one is being read; what was given
    out; the error that ended the connection; and how many bytes the messages read so far took, the current body with
    them.
  */
  datatype Conn = Conn(cell: Option<Inner>, buf: Bytes, body: Option<P.Kind>, outs: seq<Out>, ending: Ending, base: nat)

  const OPEN := Conn(Some(NEW), [], None, [], Going, 0)

  /** The decoder of a request's body. */
  function DecoderOf(body: RequestBody): Option<P.Kind> {
    match body
    case NoRequestBody => None
    case RequestPayload(kind) => Some(kind)
    case RequestStream => Some(P.UntilClose)
  }

  function AsOuts(data: Bytes): seq<Out> {
    Map(b => Byte(b), data)
  }

  // ---------------------------------------------------------------- a connection piece by piece

  function AfterHead(c: Conn, r: Called): Conn
    requires c.cell.Some?
  {
    match r.answer
    case NeedHead => c.(cell := r.cell, buf := r.rest)
    case GotHead(_, _, body) =>
      var taken := if |r.rest| <= |c.buf| then c.cell.value.consumed + |c.buf| - |r.rest| else 0;
      Conn(r.cell, r.rest, DecoderOf(body), c.outs + [Start(r.answer)], Going, c.base + taken)
    case _ => c.(cell := r.cell, buf := r.rest, ending := HeadFailed(r.answer))
  }

  function AfterBody(c: Conn, r: P.Decoded, kind: P.Kind, rest: Bytes): Conn {
    var taken := if |rest| <= |c.buf| then |c.buf| - |rest| else 0;
    match r
    case Chunk(data) => c.(buf := rest, body := Some(kind), outs := c.outs + AsOuts(data), base := c.base + taken)
    case EndOfPayload => c.(buf := rest, body := None, outs := c.outs + [BodyEnd], base := c.base + taken)
    case NeedMore => c.(buf := rest, body := Some(kind), base := c.base + taken)
    case Invalid => c.(buf := rest, body := Some(kind), ending := BodyFailed, base := c.base + taken)
  }

  function Step(p: Parser, max: nat, c: Conn, act: Action): Conn
    requires Stable(p)
  {
    match act
    case Feed(data) => c.(buf := c.buf + data)
    case PollHead =>
      if !c.ending.Going? || c.body.Some? || c.cell.None? then c
      else AfterHead(c, DecodeHead(p, max, c.cell.value, c.buf))
    case PollBody =>
      if !c.ending.Going? || c.body.None? then c
      else
        var (r, kind, rest) := P.Decode(c.body.value, c.buf);
        AfterBody(c, r, kind, rest)
  }

  function RunConn(p: Parser, max: nat, acts: seq<Action>): Conn
    requires Stable(p)
  {
    if acts == [] then OPEN else Step(p, max, RunConn(p, max, acts[..|acts| - 1]), acts[|acts| - 1])
  }

  function Received(acts: seq<Action>): Bytes {
    if acts == [] then []
    else Received(acts[..|acts| - 1]) + (if acts[|acts| - 1].Feed? then acts[|acts| - 1].data else [])
  }

  // ---------------------------------------------------------------- the connection in one go

  function AnswerOf(h: Parsed): Answer
    requires h.Whole?
  {
    GotHead(h.start, h.headers, h.body)
  }

  ghost predicate ValidBody(body: Option<P.Kind>) {
    body.Some? ==> P.ValidKind(body.value)
  }

  lemma {:induction false} DrainShrinks(kind: P.Kind, input: Bytes)
    requires P.ValidKind(kind)
    ensures |P.Drain(kind, input).rest| <= |input|
    decreases |input|
  {
    DecodeSuffix(kind, input);
    P.DecodeProgress(kind, input);
    var (r, kind', rest) := P.Decode(kind, input);
    if r.Chunk? {
      DrainShrinks(kind', rest);
    }
  }

  /** All messages of an input, up to the first head that is not legal or not shorter than the limit. */
  ghost function Messages(p: Parser, max: nat, input: Bytes): seq<Out>
    requires Stable(p)
    decreases |input|, 0
  {
    ParseFromWithin(p, NEW, input);
    var h := ParseHead(p, input);
    if !h.Whole? || h.len >= max then []
    else
      WholeIsValid(p, input);
      [Start(AnswerOf(h))] + Rest(p, max, DecoderOf(h.body), input[h.len..])
  }

  /** The rest of a body, and what follows it. */
  ghost function Rest(p: Parser, max: nat, body: Option<P.Kind>, input: Bytes): seq<Out>
    requires Stable(p) && ValidBody(body)
    decreases |input|, 1
  {
    if body.None? then Messages(p, max, input)
    else
      DrainShrinks(body.value, input);
      var d := P.Drain(body.value, input);
      AsOuts(d.out) + if d.status.Done? then [BodyEnd] + Messages(p, max, d.rest) else []
  }

  lemma {:induction false} LinesAreValid(p: Parser, start: StartLine, st: HeadState, headers: seq<Header>, input: Bytes)
    requires Stable(p)
    ensures var r := ParseLines(p, start, st, headers, input); r.Whole? ==> ValidBody(DecoderOf(r.body))
    decreases |input|
  {
    var l := p.line(input);
    assert LineAt(p.line, input, []);
    if l.LineParsed? && SetHeader(st, l.header).Some? {
      LinesAreValid(p, start, SetHeader(st, l.header).value, headers + [l.header], input[l.len..]);
    }
  }

  lemma WholeIsValid(p: Parser, input: Bytes)
    requires Stable(p)
    ensures var r := ParseHead(p, input); r.Whole? ==> ValidBody(DecoderOf(r.body))
  {
    if p.start(input).StartParsed? {
      assert StartAt(p.start, input, []);
      var s := p.start(input);
      LinesAreValid(p, s.start, NEW.st.(version := s.start.version), [], input[s.len..]);
    }
  }

  // ---------------------------------------------------------------- calls of the body decoder

  predicate IsSuffix(rest: Bytes, buf: Bytes) {
    |rest| <= |buf| && rest == buf[|buf| - |rest|..]
  }

  lemma StepSuffix(state: P.ChunkedState, size: nat, buf: Bytes)
    ensures var r := P.ChunkStep(state, size, buf); r.Next? || r.Error? ==> IsSuffix(r.rest, buf)
  {
    match state
    case Size =>
      var line := P.ParseSize(buf, 0, 0);
      DropIsSuffix(buf, if line.Complete? then line.pos else 0);
    case Body => DropIsSuffix(buf, if size > |buf| then |buf| else size);
    case _ => DropIsSuffix(buf, if buf == [] then 0 else 1);
  }

  lemma DropIsSuffix(buf: Bytes, k: nat)
    requires k <= |buf|
    ensures IsSuffix(buf[k..], buf) && buf[0..] == buf && buf[|buf|..] == []
  {}

  lemma {:induction false} ChunkedSuffix(state: P.ChunkedState, size: nat, buf: Bytes)
    ensures IsSuffix(P.DecodeChunked(state, size, buf).2, buf)
    decreases |buf|
  {
    var r := P.ChunkStep(state, size, buf);
    StepSuffix(state, size, buf);
    if r.Next? && r.state != P.End && r.out.None? && r.rest != [] {
      ChunkedSuffix(r.state, r.size, r.rest);
      SuffixOfSuffix(P.DecodeChunked(r.state, r.size, r.rest).2, r.rest, buf);
    }
  }

  lemma SuffixOfSuffix(a: Bytes, b: Bytes, c: Bytes)
    requires IsSuffix(a, b) && IsSuffix(b, c)
    ensures IsSuffix(a, c)
  {}

  /** A decoder takes bytes from the front of the buffer. */
  lemma DecodeSuffix(kind: P.Kind, buf: Bytes)
    ensures IsSuffix(P.Decode(kind, buf).2, buf)
  {
    if kind.Chunked? {
      ChunkedSuffix(kind.state, kind.size, buf);
    }
  }

  lemma OutsAppend(a: Bytes, b: Bytes)
    ensures AsOuts(a + b) == AsOuts(a) + AsOuts(b)
  {}

  /** What a call of the body decoder gives, and what is then left, is what was left before. */
  ghost predicate BodyGoesOn(p: Parser, max: nat, kind: P.Kind, buf: Bytes, future: Bytes)
    requires Stable(p) && P.ValidKind(kind)
  {
    var (r, kind', rest) := P.Decode(kind, buf);
    var all := Rest(p, max, Some(kind), buf + future);
    P.ValidKind(kind') &&
    match r
    case Chunk(data) => all == AsOuts(data) + Rest(p, max, Some(kind'), rest + future)
    case EndOfPayload => all == [BodyEnd] + Messages(p, max, rest + future)
    case NeedMore => all == Rest(p, max, Some(kind'), rest + future)
    case Invalid => all == []
  }

  lemma BodyCall(p: Parser, max: nat, kind: P.Kind, buf: Bytes, future: Bytes)
    requires Stable(p) && P.ValidKind(kind)
    ensures BodyGoesOn(p, max, kind, buf, future)
  {
    P.DecodeProgress(kind, buf);
    P.DecodeLater(kind, buf, future);
    var (r, kind', rest) := P.Decode(kind, buf);
    match r
    case Chunk(data) =>
      var d := P.Drain(kind', rest + future);
      OutsAppend(data, d.out);
      Assoc(AsOuts(data), AsOuts(d.out), if d.status.Done? then [BodyEnd] + Messages(p, max, d.rest) else []);
    case _ =>
      assert AsOuts([]) == [];
  }

  // ---------------------------------------------------------------- every schedule follows it

  /** Where a connection stands in the input as a whole. */
  ghost predicate Stands(p: Parser, max: nat, c: Conn, fed: Bytes, future: Bytes)
    requires Stable(p)
  {
    && c.base <= |fed|
    && if c.body.Some? then
         P.ValidKind(c.body.value) && c.cell == Some(NEW) && c.buf == fed[c.base..] && !c.ending.HeadFailed?
       else
         && !c.ending.BodyFailed? && (c.ending.HeadFailed? ==> c.ending.answer.BadHead? || c.ending.answer.TooLarge?)
         && SessionSays(p, max, HeadSession(c.cell, c.buf, Waiting(c.ending)), fed[c.base..], future)
  }

  /** The last answer of the head decoder. */
  function Waiting(ending: Ending): Answer {
    if ending.HeadFailed? then ending.answer else NeedHead
  }

  /** What is still to be given out. */
  ghost function Ahead(p: Parser, max: nat, c: Conn, fed: Bytes, future: Bytes): seq<Out>
    requires Stable(p) && Stands(p, max, c, fed, future)
  {
    if c.ending.BodyFailed? then [] else Rest(p, max, c.body, fed[c.base..] + future)
  }

  ghost predicate Follows(p: Parser, max: nat, c: Conn, fed: Bytes, future: Bytes)
    requires Stable(p)
  {
    Stands(p, max, c, fed, future) && Messages(p, max, fed + future) == c.outs + Ahead(p, max, c, fed, future)
  }

  /** A decoder that waits for a new head with anything in its buffer. */
  lemma FreshSession(p: Parser, max: nat, buf: Bytes, future: Bytes)
    requires Stable(p)
    ensures SessionSays(p, max, HeadSession(Some(NEW), buf, NeedHead), buf, future)
  {}

  lemma FeedFollows(p: Parser, max: nat, c: Conn, fed: Bytes, data: Bytes, future: Bytes)
    requires Stable(p) && Follows(p, max, c, fed, data + future)
    ensures Follows(p, max, c.(buf := c.buf + data), fed + data, future)
  {
    Assoc(fed, data, future);
    assert (fed + data)[c.base..] == fed[c.base..] + data;
    Assoc(fed[c.base..], data, future);
    if c.body.None? {
      SessionFeeds(p, max, HeadSession(c.cell, c.buf, Waiting(c.ending)), fed[c.base..], data, future);
    }
  }

  /** `r` took the head `h` off the buffer. */
  ghost predicate Taken(c: Conn, r: Called, h: Parsed, fed: Bytes) {
    && c.cell.Some? && h.Whole? && r.answer == AnswerOf(h) && r.cell == Some(NEW)
    && |r.rest| <= |c.buf| && h.len == c.cell.value.consumed + |c.buf| - |r.rest|
    && c.base + h.len + |r.rest| == |fed| && fed[c.base + h.len..] == r.rest
  }

  lemma HeadTaken(p: Parser, max: nat, c: Conn, fed: Bytes, future: Bytes)
    requires Stable(p) && c.body.None? && c.ending.Going? && Stands(p, max, c, fed, future)
    requires DecodeHead(p, max, c.cell.value, c.buf).answer.GotHead?
    ensures var h := ParseHead(p, fed[c.base..] + future);
      Taken(c, DecodeHead(p, max, c.cell.value, c.buf), h, fed) && h.len < max
  {
    var part := fed[c.base..];
    TakenOff(p, max, c.cell.value, c.buf, part, future);
    var h := ParseHead(p, part + future);
    assert fed[c.base + h.len..] == part[h.len..];
  }

  /** A head that was read, in terms of the bytes received for it. */
  lemma TakenOff(p: Parser, max: nat, inner: Inner, buf: Bytes, part: Bytes, future: Bytes)
    requires Stable(p) && SessionSays(p, max, HeadSession(Some(inner), buf, NeedHead), part, future)
    requires DecodeHead(p, max, inner, buf).answer.GotHead?
    ensures var (r, h) := (DecodeHead(p, max, inner, buf), ParseHead(p, part + future));
      && h.Whole? && r.answer == AnswerOf(h) && r.cell == Some(NEW) && h.len < max
      && |r.rest| <= |buf| && h.len == inner.consumed + |buf| - |r.rest|
      && h.len + |r.rest| == |part| && part[h.len..] == r.rest
  {
    SessionPolls(p, max, HeadSession(Some(inner), buf, NeedHead), part, future);
    CallLater(p, max, inner, buf, future);
  }

  /** The messages from here on are the head and then its body. */
  lemma HeadNext(p: Parser, max: nat, input: Bytes)
    requires Stable(p) && ParseHead(p, input).Whole? && ParseHead(p, input).len < max
    ensures var h := ParseHead(p, input);
      && h.len <= |input| && ValidBody(DecoderOf(h.body))
      && Messages(p, max, input) == [Start(AnswerOf(h))] + Rest(p, max, DecoderOf(h.body), input[h.len..])
  {
    ParseFromWithin(p, NEW, input);
    WholeIsValid(p, input);
  }

  lemma TakenStands(p: Parser, max: nat, c: Conn, r: Called, h: Parsed, fed: Bytes, future: Bytes)
    requires Stable(p) && Taken(c, r, h, fed) && ValidBody(DecoderOf(h.body))
    ensures var c' := AfterHead(c, r);
      Stands(p, max, c', fed, future) && c'.base == c.base + h.len && c'.body == DecoderOf(h.body)
      && c'.outs == c.outs + [Start(AnswerOf(h))] && c'.ending.Going? && c'.buf == fed[c.base + h.len..]
  {
    FreshSession(p, max, r.rest, future);
  }

  /** The head, and then what is ahead of the connection behind it. */
  lemma TakenAhead(p: Parser, max: nat, c: Conn, c': Conn, h: Parsed, fed: Bytes, future: Bytes)
    requires Stable(p) && c.body.None? && c.ending.Going? && Stands(p, max, c, fed, future)
    requires h == ParseHead(p, fed[c.base..] + future) && h.Whole? && h.len < max && c.base + h.len <= |fed|
    requires Stands(p, max, c', fed, future) && c'.ending.Going?
    requires c'.base == c.base + h.len && c'.body == DecoderOf(h.body)
    ensures Ahead(p, max, c, fed, future) == [Start(AnswerOf(h))] + Ahead(p, max, c', fed, future)
  {
    RestNext(p, max, fed[c.base..] + future, h, fed[c'.base..] + future);
    BehindHead(fed, c.base, h.len, future);
  }

  lemma RestNext(p: Parser, max: nat, part: Bytes, h: Parsed, behind: Bytes)
    requires Stable(p) && h == ParseHead(p, part) && h.Whole? && h.len < max
    ensures h.len <= |part| && ValidBody(DecoderOf(h.body))
    ensures part[h.len..] == behind ==>
      Rest(p, max, None, part) == [Start(AnswerOf(h))] + Rest(p, max, DecoderOf(h.body), behind)
  {
    HeadNext(p, max, part);
  }

  lemma TakenFollows(p: Parser, max: nat, c: Conn, r: Called, fed: Bytes, future: Bytes)
    requires Stable(p) && c.body.None? && c.ending.Going? && Follows(p, max, c, fed, future)
    requires var h := ParseHead(p, fed[c.base..] + future); Taken(c, r, h, fed) && h.len < max
    ensures Follows(p, max, AfterHead(c, r), fed, future)
  {
    var h := ParseHead(p, fed[c.base..] + future);
    WholeIsValid(p, fed[c.base..] + future);
    TakenStands(p, max, c, r, h, fed, future);
    var c' := AfterHead(c, r);
    TakenAhead(p, max, c, c', h, fed, future);
    Assoc(c.outs, [Start(AnswerOf(h))], Ahead(p, max, c', fed, future));
  }

  lemma BehindHead(fed: Bytes, base: nat, len: nat, future: Bytes)
    requires base + len <= |fed|
    ensures (fed[base..] + future)[len..] == fed[base + len..] + future
  {}

  lemma PollHeadFollows(p: Parser, max: nat, c: Conn, fed: Bytes, future: Bytes)
    requires Stable(p) && Follows(p, max, c, fed, future)
    ensures Follows(p, max, Step(p, max, c, PollHead), fed, future)
  {
    if c.ending.Going? && c.body.None? && c.cell.Some? {
      var r := DecodeHead(p, max, c.cell.value, c.buf);
      if r.answer.GotHead? {
        HeadTaken(p, max, c, fed, future);
        TakenFollows(p, max, c, r, fed, future);
      } else {
        SessionPolls(p, max, HeadSession(c.cell, c.buf, NeedHead), fed[c.base..], future);
      }
    }
  }

  lemma CalledStands(p: Parser, max: nat, c: Conn, r: P.Decoded, kind: P.Kind, rest: Bytes, fed: Bytes, future: Bytes)
    requires Stable(p) && c.body.Some? && c.ending.Going? && Stands(p, max, c, fed, future)
    requires IsSuffix(rest, c.buf) && P.ValidKind(kind)
    ensures var c' := AfterBody(c, r, kind, rest);
      Stands(p, max, c', fed, future) && fed[c'.base..] == rest && c'.base <= |fed|
  {
    var c' := AfterBody(c, r, kind, rest);
    assert fed[c'.base..] == c.buf[|c.buf| - |rest|..];
    FreshSession(p, max, rest, future);
  }

  lemma PollBodyFollows(p: Parser, max: nat, c: Conn, fed: Bytes, future: Bytes)
    requires Stable(p) && Follows(p, max, c, fed, future)
    ensures Follows(p, max, Step(p, max, c, PollBody), fed, future)
  {
    if c.ending.Going? && c.body.Some? {
      var (r, kind, rest) := P.Decode(c.body.value, c.buf);
      BodyCall(p, max, c.body.value, c.buf, future);
      DecodeSuffix(c.body.value, c.buf);
      CalledStands(p, max, c, r, kind, rest, fed, future);
      match r
      case Chunk(data) => Assoc(c.outs, AsOuts(data), Rest(p, max, Some(kind), rest + future));
      case EndOfPayload => Assoc(c.outs, [BodyEnd], Messages(p, max, rest + future));
      case _ =>
    }
  }

  /** Whatever the pieces and whenever the calls, a connection stands in its input as the input in one go says. */
  lemma {:induction false} ConnectionFollows(p: Parser, max: nat, acts: seq<Action>, future: Bytes)
    requires Stable(p)
    ensures Follows(p, max, RunConn(p, max, acts), Received(acts), future)
  {
    if acts == [] {
      FreshSession(p, max, [], future);
      assert [][0..] + future == [] + future;
    } else {
      var before := acts[..|acts| - 1];
      var c := RunConn(p, max, before);
      match acts[|acts| - 1]
      case Feed(data) =>
        ConnectionFollows(p, max, before, data + future);
        FeedFollows(p, max, c, Received(before), data, future);
      case PollHead =>
        assert Received(acts) == Received(before);
        ConnectionFollows(p, max, before, future);
        PollHeadFollows(p, max, c, Received(before), future);
      case PollBody =>
        assert Received(acts) == Received(before);
        ConnectionFollows(p, max, before, future);
        PollBodyFollows(p, max, c, Received(before), future);
    }
  }

  // ---------------------------------------------------------------- what a connection gives out

  /** The next call decides about a legal head `h` by its length alone, and leaves what follows it in the buffer. */
  ghost predicate Decided(max: nat, c: Conn, h: Parsed, fed: Bytes, c': Conn) {
    h.Whole? ==>
      && (c'.ending.HeadFailed? ==> c'.ending.answer.TooLarge? && h.len >= max)
      && (c.base + h.len <= |fed| ==>
            if h.len < max then
              c'.outs == c.outs + [Start(AnswerOf(h))] && c'.buf == fed[c.base + h.len..] && c'.ending.Going?
            else c'.outs == c.outs && c'.ending.HeadFailed?)
  }

  lemma HeadIsDecided(p: Parser, max: nat, c: Conn, fed: Bytes, future: Bytes)
    requires Stable(p) && Stands(p, max, c, fed, future) && c.ending.Going? && c.body.None?
    ensures Decided(max, c, ParseHead(p, fed[c.base..] + future), fed, Step(p, max, c, PollHead))
  {
    SessionPolls(p, max, HeadSession(c.cell, c.buf, NeedHead), fed[c.base..], future);
    if DecodeHead(p, max, c.cell.value, c.buf).answer.GotHead? {
      HeadTaken(p, max, c, fed, future);
    }
  }

  lemma FailedIsLast(p: Parser, max: nat, c: Conn, fed: Bytes, future: Bytes)
    requires Stable(p) && Stands(p, max, c, fed, future) && !c.ending.Going?
    ensures Ahead(p, max, c, fed, future) == []
  {
    if c.body.None? {
      NoMessages(p, max, fed[c.base..] + future);
    }
  }

  lemma NoMessages(p: Parser, max: nat, input: Bytes)
    requires Stable(p)
    ensures var h := ParseHead(p, input); !h.Whole? || h.len >= max ==> Rest(p, max, None, input) == []
  {
    assert Rest(p, max, None, input) == Messages(p, max, input);
  }

  /**
    For every message of a connection and every way its bytes arrive: what is given out is the beginning of the
    messages in the input; an error comes only behind all of them; while a head is awaited the bytes counted and the
    bytes in the buffer are those received behind the last message; and a call when a legal head is there in full
    gives that head if it is shorter than the limit, and otherwise the error for its size.
  */
  lemma EveryHeadAcceptedIffShort(p: Parser, max: nat, acts: seq<Action>, future: Bytes)
    requires Stable(p)
    ensures var (c, fed) := (RunConn(p, max, acts), Received(acts));
      && c.outs <= Messages(p, max, fed + future)
      && (!c.ending.Going? ==> c.outs == Messages(p, max, fed + future))
      && (c.ending.Going? && c.body.None? ==>
            && c.base <= |fed| && c.cell.Some? && c.cell.value.consumed + |c.buf| == |fed| - c.base
            && Decided(max, c, ParseHead(p, fed[c.base..] + future), fed, RunConn(p, max, acts + [PollHead])))
  {
    ConnectionFollows(p, max, acts, future);
    var c, fed := RunConn(p, max, acts), Received(acts);
    assert (acts + [PollHead])[..|acts|] == acts;
    if !c.ending.Going? {
      FailedIsLast(p, max, c, fed, future);
    } else if c.body.None? {
      HeadIsDecided(p, max, c, fed, future);
    }
  }

  /** The call that is due. */
  function Due(c: Conn): Action {
    if c.body.Some? then PollBody else PollHead
  }

  lemma NoHeadThere(p: Parser, max: nat, c: Conn, fed: Bytes)
    requires Stable(p) && Stands(p, max, c, fed, []) && c.ending.Going? && c.body.None?
    requires var c' := Step(p, max, c, PollHead); c'.ending.Going? && c'.outs == c.outs
    ensures Ahead(p, max, c, fed, []) == []
  {
    var part := fed[c.base..];
    assert part + [] == part;
    HeadIsDecided(p, max, c, fed, []);
    ParseFromWithin(p, NEW, part);
    NoMessages(p, max, part);
  }

  lemma NoByteThere(p: Parser, max: nat, c: Conn, fed: Bytes)
    requires Stable(p) && Stands(p, max, c, fed, []) && c.ending.Going? && c.body.Some?
    requires var c' := Step(p, max, c, PollBody); c'.ending.Going? && c'.outs == c.outs
    ensures Ahead(p, max, c, fed, []) == []
  {
    assert fed[c.base..] + [] == c.buf;
    P.DecodeProgress(c.body.value, c.buf);
    var (r, kind, rest) := P.Decode(c.body.value, c.buf);
    assert AsOuts([]) == [];
  }

  /**
    Nothing is held back: when the call that is due gives nothing and no error, all messages in what has arrived, and
    of a last incomplete body all the bytes that can be told, have been given out.
  */
  lemma NothingHeldBack(p: Parser, max: nat, acts: seq<Action>)
    requires Stable(p) && RunConn(p, max, acts).ending.Going?
    requires var (c, c') := (RunConn(p, max, acts), RunConn(p, max, acts + [Due(RunConn(p, max, acts))]));
      c'.ending.Going? && c'.outs == c.outs
    ensures RunConn(p, max, acts).outs == Messages(p, max, Received(acts))
  {
    var c, fed := RunConn(p, max, acts), Received(acts);
    ConnectionFollows(p, max, acts, []);
    assert fed + [] == fed;
    assert (acts + [Due(c)])[..|acts|] == acts;
    if c.body.None? {
      NoHeadThere(p, max, c, fed);
    } else {
      NoByteThere(p, max, c, fed);
    }
  }
}
