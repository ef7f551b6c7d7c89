/**
  The decoder of message heads (`h1/decoder.rs`): a start line and header lines read from a buffer that fills
  piece by piece, with a limit on the size of a head.
*/
module Head {
  import opened Basics
  import opened Payload
  import opened Framing

  /** What the decoder keeps of a request line. */
  datatype StartLine = StartLine(version: Version, post: bool, connect: bool, id: nat)

  datatype StartParse = StartPartial | StartParsed(len: nat, start: StartLine) | StartBad

  datatype LineParse = LinePartial | LineParsed(len: nat, header: Header) | HeadEnd(len: nat) | LineBad

  /**
    The parsers of single lines, which belong to a library: any functions that more input does not make change
    their mind, and that look at nothing behind the line.
  */
  datatype Parser = Parser(start: Bytes -> StartParse, line: Bytes -> LineParse)

  ghost predicate StartAt(start: Bytes -> StartParse, a: Bytes, b: Bytes) {
    && (!start(a).StartPartial? ==> start(a + b) == start(a))
    && (start(a).StartParsed? ==> 0 < start(a).len <= |a| && start(a[..start(a).len]) == start(a))
  }

  ghost predicate LineAt(line: Bytes -> LineParse, a: Bytes, b: Bytes) {
    && (!line(a).LinePartial? ==> line(a + b) == line(a))
    && (line(a).LineParsed? || line(a).HeadEnd? ==> 0 < line(a).len <= |a| && line(a[..line(a).len]) == line(a))
  }

  ghost predicate Stable(p: Parser) {
    && (forall a: Bytes, b: Bytes :: StartAt(p.start, a, b))
    && (forall a: Bytes, b: Bytes :: LineAt(p.line, a, b))
  }

  datatype RequestBody = NoRequestBody | RequestPayload(kind: Kind) | RequestStream

  /** `set_payload_length` of a request */
  function RequestLength(start: StartLine, length: PayloadLength): Option<RequestBody> {
    if start.version.Http10? && start.post && length.NoBody? then None
    else
      match length
      case ChunkedBody => Some(RequestPayload(Chunked(Size, 0)))
      case LengthBody(n) => Some(if n > 0 then RequestPayload(Length(n))
          else if start.connect then RequestStream else NoRequestBody)
      case UpgradeBody => Some(RequestStream)
      case NoBody => Some(if start.connect then RequestStream else NoRequestBody)
  }

  // ---------------------------------------------------------------- the decoder

  datatype Lines = LinesPending(st: HeadState, headers: seq<Header>, rest: Bytes)
                 | LinesDone(st: HeadState, headers: seq<Header>, rest: Bytes)
                 | LinesFailed(st: HeadState, headers: seq<Header>, rest: Bytes)

  /** `decode_headers` */
  function DecodeHeaders(p: Parser, st: HeadState, headers: seq<Header>, src: Bytes): (r: Lines)
    requires Stable(p)
    ensures |r.rest| <= |src|
    decreases |src|
  {
    assert LineAt(p.line, src, []);
    match p.line(src)
    case LinePartial => LinesPending(st, headers, src)
    case LineBad => LinesFailed(st, headers, src)
    case HeadEnd(len) => LinesDone(st, headers, src[len..])
    case LineParsed(len, h) =>
      var st1 := SetHeader(st, h);
      if st1.None? then LinesFailed(st, headers, src[len..])
      else DecodeHeaders(p, st1.value, headers + [h], src[len..])
  }

  /** `Inner`; the headers are those of the message under construction. */
  datatype Inner = Inner(val: Option<StartLine>, st: HeadState, headers: seq<Header>, consumed: nat)

  const NEW := Inner(None, Fresh(Http11), [], 0)

  datatype Answer = NeedHead | GotHead(start: StartLine, headers: seq<Header>, body: RequestBody) | BadHead
                  | TooLarge(size: nat)

  /** Result of a call: the answer, the cell, and what is left of the buffer. */
  datatype Called = Called(answer: Answer, cell: Option<Inner>, rest: Bytes)

  /** The check at the end of `decode`. */
  function Limited(max: nat, size: nat, c: Called): Called {
    if size >= max then c.(answer := TooLarge(size), cell := None) else c
  }

  /** `decode` once the start line is known; `len` is the size of the buffer at the beginning of the call. */
  function DecodeLines(p: Parser, max: nat, inner: Inner, len: nat, src: Bytes): Called
    requires Stable(p) && inner.val.Some? && |src| <= len
  {
    match DecodeHeaders(p, inner.st, inner.headers, src)
    case LinesPending(st, headers, rest) =>
      var size := inner.consumed + len;
      Limited(max, size, Called(NeedHead, Some(Inner(inner.val, st, headers, size - |rest|)), rest))
    case LinesFailed(st, headers, rest) =>
      Limited(max, 0, Called(BadHead, Some(Inner(inner.val, st, headers, inner.consumed)), rest))
    case LinesDone(st, headers, rest) =>
      var body := RequestLength(inner.val.value, LengthIn(st));
      if body.None? then Called(BadHead, None, rest)
      else Limited(max, inner.consumed + len - |rest|,
                   Called(GotHead(inner.val.value, headers, body.value), Some(NEW), rest))
  }

  /** `MessageDecoder::decode` */
  function DecodeHead(p: Parser, max: nat, inner: Inner, src: Bytes): Called
    requires Stable(p)
  {
    if inner.val.Some? then DecodeLines(p, max, inner, |src|, src)
    else
      assert StartAt(p.start, src, []);
      match p.start(src)
      case StartPartial => Limited(max, |src|, Called(NeedHead, Some(inner), src))
      case StartBad => Called(BadHead, None, src)
      case StartParsed(len, start) =>
        DecodeLines(p, max, inner.(val := Some(start), st := inner.st.(version := start.version)), |src|, src[len..])
  }

  // ---------------------------------------------------------------- reading a head in one go

  /** A head at the beginning of an input: how long it is and what it says, if it is complete and legal. */
  datatype Parsed = Incomplete | Whole(len: nat, start: StartLine, headers: seq<Header>, body: RequestBody) | Malformed

  function Shift(k: nat, r: Parsed): Parsed {
    if r.Whole? then r.(len := r.len + k) else r
  }

  function ParseLines(p: Parser, start: StartLine, st: HeadState, headers: seq<Header>, input: Bytes): Parsed
    requires Stable(p)
    decreases |input|
  {
    assert LineAt(p.line, input, []);
    match p.line(input)
    case LinePartial => Incomplete
    case LineBad => Malformed
    case HeadEnd(len) =>
      var body := RequestLength(start, LengthIn(st));
      if body.None? then Malformed else Whole(len, start, headers, body.value)
    case LineParsed(len, h) =>
      var st1 := SetHeader(st, h);
      if st1.None? then Malformed else Shift(len, ParseLines(p, start, st1.value, headers + [h], input[len..]))
  }

  /** What `inner` and the input to come amount to. */
  function ParseFrom(p: Parser, inner: Inner, input: Bytes): Parsed
    requires Stable(p)
  {
    if inner.val.Some? then ParseLines(p, inner.val.value, inner.st, inner.headers, input)
    else
      assert StartAt(p.start, input, []);
      match p.start(input)
      case StartPartial => Incomplete
      case StartBad => Malformed
      case StartParsed(len, start) =>
        Shift(len, ParseLines(p, start, inner.st.(version := start.version), inner.headers, input[len..]))
  }

  function ParseHead(p: Parser, input: Bytes): Parsed
    requires Stable(p)
  {
    ParseFrom(p, NEW, input)
  }

  /** A complete head lies within the input. */
  lemma {:induction false} ParseLinesWithin(p: Parser, start: StartLine, st: HeadState, headers: seq<Header>,
        input: Bytes)
    requires Stable(p)
    ensures var r := ParseLines(p, start, st, headers, input); r.Whole? ==> 0 < r.len <= |input|
    decreases |input|
  {
    var l := p.line(input);
    assert LineAt(p.line, input, []);
    if l.LineParsed? && SetHeader(st, l.header).Some? {
      ParseLinesWithin(p, start, SetHeader(st, l.header).value, headers + [l.header], input[l.len..]);
    }
  }

  lemma ParseFromWithin(p: Parser, inner: Inner, input: Bytes)
    requires Stable(p)
    ensures var r := ParseFrom(p, inner, input); r.Whole? ==> 0 < r.len <= |input|
  {
    if inner.val.Some? {
      ParseLinesWithin(p, inner.val.value, inner.st, inner.headers, input);
    } else if p.start(input).StartParsed? {
      assert StartAt(p.start, input, []);
      var s := p.start(input);
      ParseLinesWithin(p, s.start, inner.st.(version := s.start.version), inner.headers, input[s.len..]);
    }
  }

  // ---------------------------------------------------------------- one call

  /** What the header loop leaves, completed with later input, parses like the whole. */
  ghost predicate LinesLater(p: Parser, start: StartLine, st: HeadState, headers: seq<Header>, src: Bytes, later: Bytes)
    requires Stable(p)
  {
    var whole := ParseLines(p, start, st, headers, src + later);
    match DecodeHeaders(p, st, headers, src)
    case LinesPending(st', headers', rest) =>
      && src[|src| - |rest|..] == rest
      && whole == Shift(|src| - |rest|, ParseLines(p, start, st', headers', rest + later))
      && p.line(rest).LinePartial?
    case LinesFailed(_, _, _) => whole == Malformed
    case LinesDone(st', headers', rest) =>
      var body := RequestLength(start, LengthIn(st'));
      && src[|src| - |rest|..] == rest
      && whole == if body.None? then Malformed else Whole(|src| - |rest|, start, headers', body.value)
  }

  lemma LinesLaterStep(p: Parser, start: StartLine, st: HeadState, headers: seq<Header>, src: Bytes, later: Bytes,
        st1: HeadState)
    requires Stable(p) && p.line(src).LineParsed? && SetHeader(st, p.line(src).header) == Some(st1)
    requires p.line(src + later) == p.line(src) && p.line(src).len <= |src|
    requires LinesLater(p, start, st1, headers + [p.line(src).header], src[p.line(src).len..], later)
    ensures LinesLater(p, start, st, headers, src, later)
  {
    assert (src + later)[p.line(src).len..] == src[p.line(src).len..] + later;
  }

  lemma {:induction false} DecodeLinesLater(p: Parser, start: StartLine, st: HeadState, headers: seq<Header>,
        src: Bytes, later: Bytes)
    requires Stable(p)
    ensures LinesLater(p, start, st, headers, src, later)
    decreases |src|
  {
    var l := p.line(src);
    assert LineAt(p.line, src, later);
    if l.LineParsed? && SetHeader(st, l.header).Some? {
      var st1 := SetHeader(st, l.header).value;
      DecodeLinesLater(p, start, st1, headers + [l.header], src[l.len..], later);
      LinesLaterStep(p, start, st, headers, src, later, st1);
    }
  }

  /** A line is recognised as soon as its bytes are there. */
  lemma LineEarly(p: Parser, a: Bytes, b: Bytes)
    requires Stable(p)
    requires var l := p.line(a + b); (l.LineParsed? || l.HeadEnd?) && l.len <= |a|
    ensures p.line(a) == p.line(a + b)
  {
    var l := p.line(a + b);
    assert LineAt(p.line, a + b, []);
    assert (a + b)[..l.len] == a[..l.len];
    assert a[..l.len] + a[l.len..] == a;
    assert LineAt(p.line, a[..l.len], a[l.len..]);
  }

  lemma StartEarly(p: Parser, a: Bytes, b: Bytes)
    requires Stable(p)
    requires p.start(a + b).StartParsed? && p.start(a + b).len <= |a|
    ensures p.start(a) == p.start(a + b)
  {
    var l := p.start(a + b);
    assert StartAt(p.start, a + b, []);
    assert (a + b)[..l.len] == a[..l.len];
    assert a[..l.len] + a[l.len..] == a;
    assert StartAt(p.start, a[..l.len], a[l.len..]);
  }

  /** Nothing more can be read off `buf` alone. */
  predicate Stuck(p: Parser, inner: Inner, buf: Bytes) {
    if inner.val.Some? then p.line(buf).LinePartial? else p.start(buf).StartPartial?
  }

  lemma StuckBehind(p: Parser, inner: Inner, buf: Bytes, later: Bytes)
    requires Stable(p) && Stuck(p, inner, buf)
    ensures var r := ParseFrom(p, inner, buf + later); r.Whole? ==> r.len > |buf|
  {
    var input := buf + later;
    if inner.val.Some? {
      var l := p.line(input);
      if (l.LineParsed? || l.HeadEnd?) && l.len <= |buf| {
        LineEarly(p, buf, later);
      }
    } else if p.start(input).StartParsed? && p.start(input).len <= |buf| {
      StartEarly(p, buf, later);
    }
  }

  /** Bytes are counted only once the start line is taken off the buffer. */
  predicate ValidInner(inner: Inner) {
    inner.val.None? ==> inner == NEW
  }

  /**
    What a call that began with `len` bytes in the buffer, behind `consumed` others, says about the head as a whole;
    `src` is what it had not looked at before.
  */
  ghost predicate Tells(p: Parser, max: nat, consumed: nat, len: nat, src: Bytes, later: Bytes, whole: Parsed,
        c: Called)
    requires Stable(p) && |src| <= len
  {
    && |c.rest| <= |src|
    && match c.answer
       case NeedHead =>
         && c.cell.Some? && ValidInner(c.cell.value) && src[|src| - |c.rest|..] == c.rest
         && c.cell.value.consumed + |c.rest| == consumed + len < max
         && whole == Shift(len - |c.rest|, ParseFrom(p, c.cell.value, c.rest + later))
         && (whole.Whole? ==> whole.len > len)
       case GotHead(start, headers, body) =>
         && c.cell == Some(NEW) && src[|src| - |c.rest|..] == c.rest
         && whole == Whole(len - |c.rest|, start, headers, body)
         && consumed + whole.len < max
       case TooLarge(size) => c.cell.None? && size >= max && (whole.Whole? ==> consumed + whole.len >= size)
       case BadHead => whole == Malformed
  }

  lemma TailTells(p: Parser, max: nat, consumed: nat, len: nat, src: Bytes, k: nat, later: Bytes, whole: Parsed,
        c: Called)
    requires Stable(p) && k <= |src| <= len && Tells(p, max, consumed, len, src[k..], later, whole, c)
    ensures Tells(p, max, consumed, len, src, later, whole, c)
  {
    assert src[|src| - |c.rest|..] == src[k..][|src| - k - |c.rest|..];
  }

  /** What a call says about the input as a whole, of which `inner.consumed` bytes were taken before. */
  ghost predicate CallSays(p: Parser, max: nat, inner: Inner, src: Bytes, later: Bytes, c: Called)
    requires Stable(p)
  {
    Tells(p, max, inner.consumed, |src|, src, later, ParseFrom(p, inner, src + later), c)
  }

  lemma LinesSay(p: Parser, max: nat, inner: Inner, len: nat, src: Bytes, later: Bytes)
    requires Stable(p) && inner.val.Some? && |src| <= len
    ensures Tells(p, max, inner.consumed, len, src, later, Shift(len - |src|, ParseFrom(p, inner, src + later)),
                  DecodeLines(p, max, inner, len, src))
  {
    DecodeLinesLater(p, inner.val.value, inner.st, inner.headers, src, later);
    var r := DecodeHeaders(p, inner.st, inner.headers, src);
    if r.LinesPending? {
      StuckBehind(p, Inner(inner.val, r.st, r.headers, 0), r.rest, later);
    }
  }

  /** A call that finds the start line. */
  lemma StartedCall(p: Parser, max: nat, inner: Inner, src: Bytes, later: Bytes)
    requires Stable(p) && inner == NEW && p.start(src).StartParsed?
    ensures CallSays(p, max, inner, src, later, DecodeHead(p, max, inner, src))
  {
    var s := p.start(src);
    assert StartAt(p.start, src, later);
    assert (src + later)[s.len..] == src[s.len..] + later;
    var started := inner.(val := Some(s.start), st := inner.st.(version := s.start.version));
    LinesSay(p, max, started, |src|, src[s.len..], later);
    TailTells(p, max, 0, |src|, src, s.len, later, ParseFrom(p, inner, src + later),
              DecodeLines(p, max, started, |src|, src[s.len..]));
  }

  /** A call that knows the start line, or does not find it. */
  lemma OtherCall(p: Parser, max: nat, inner: Inner, src: Bytes, later: Bytes)
    requires Stable(p) && ValidInner(inner) && (inner.val.Some? || !p.start(src).StartParsed?)
    ensures CallSays(p, max, inner, src, later, DecodeHead(p, max, inner, src))
  {
    if inner.val.Some? {
      LinesSay(p, max, inner, |src|, src, later);
    } else if p.start(src).StartPartial? {
      StuckBehind(p, inner, src, later);
    } else {
      assert StartAt(p.start, src, later);
    }
  }

  lemma CallLater(p: Parser, max: nat, inner: Inner, src: Bytes, later: Bytes)
    requires Stable(p) && ValidInner(inner)
    ensures CallSays(p, max, inner, src, later, DecodeHead(p, max, inner, src))
  {
    if inner.val.None? && p.start(src).StartParsed? {
      StartedCall(p, max, inner, src, later);
    } else {
      OtherCall(p, max, inner, src, later);
    }
  }

  // ---------------------------------------------------------------- sessions

  /** A decoder while it waits for one head; the first answer that is not a call for more data ends it. */
  datatype HeadSession = HeadSession(cell: Option<Inner>, buf: Bytes, answer: Answer)

  /** What a session knows about the input as a whole. */
  ghost predicate SessionSays(p: Parser, max: nat, s: HeadSession, fed: Bytes, future: Bytes)
    requires Stable(p)
  {
    var whole := ParseHead(p, fed + future);
    match s.answer
    case NeedHead =>
      && s.cell.Some? && ValidInner(s.cell.value)
      && s.cell.value.consumed + |s.buf| == |fed| && fed[s.cell.value.consumed..] == s.buf
      && whole == Shift(s.cell.value.consumed, ParseFrom(p, s.cell.value, s.buf + future))
    case GotHead(start, headers, body) =>
      && s.cell == Some(NEW)
      && whole.Whole? && whole == Whole(whole.len, start, headers, body) && whole.len < max
      && |s.buf| + whole.len == |fed| && fed[whole.len..] == s.buf
    case TooLarge(size) => s.cell.None? && (whole.Whole? ==> whole.len >= max)
    case BadHead => whole == Malformed
  }

  lemma SessionFeeds(p: Parser, max: nat, s: HeadSession, fed: Bytes, data: Bytes, future: Bytes)
    requires Stable(p) && SessionSays(p, max, s, fed, data + future)
    ensures SessionSays(p, max, s.(buf := s.buf + data), fed + data, future)
  {
    assert fed + (data + future) == fed + data + future;
    assert s.buf + (data + future) == s.buf + data + future;
    var whole := ParseHead(p, fed + data + future);
    if s.answer.GotHead? {
      assert (fed + data)[whole.len..] == fed[whole.len..] + data;
    } else if s.answer.NeedHead? {
      var k := s.cell.value.consumed;
      assert (fed + data)[k..] == fed[k..] + data;
    }
  }

  lemma SessionPolls(p: Parser, max: nat, s: HeadSession, fed: Bytes, future: Bytes)
    requires Stable(p) && SessionSays(p, max, s, fed, future) && s.answer.NeedHead?
    ensures var c := DecodeHead(p, max, s.cell.value, s.buf);
      && SessionSays(p, max, HeadSession(c.cell, c.rest, c.answer), fed, future)
      && (c.answer.NeedHead? ==>
            && |fed| < max
            && (ParseHead(p, fed + future).Whole? ==> ParseHead(p, fed + future).len > |fed|))
  {
    CallLater(p, max, s.cell.value, s.buf, future);
  }
}

/** The head decoder as an object that keeps its state between calls. */
module HeadDecoder {
  import opened Basics
  import opened Payload
  import opened Framing
  import opened Head

  class MessageDecoder {
    const parser: Parser
    const maxBufSize: nat
    var inner: Option<Inner>
    var src: Bytes

    constructor (parser: Parser, maxBufSize: nat)
      ensures this.parser == parser && this.maxBufSize == maxBufSize && inner == Some(NEW) && src == []
    {
      this.parser := parser;
      this.maxBufSize := maxBufSize;
      inner := Some(NEW);
      src := [];
    }

    /** `decode_headers`: the loop over the lines in the buffer. */
    method DecodeLoop(st0: HeadState, headers0: seq<Header>) returns (r: Lines)
      requires Stable(parser)
      modifies this`src
      ensures r == DecodeHeaders(parser, st0, headers0, old(src)) && src == r.rest
    {
      var st, headers := st0, headers0;
      while true
        invariant DecodeHeaders(parser, st, headers, src) == DecodeHeaders(parser, st0, headers0, old(src))
        decreases |src|
      {
        assert LineAt(parser.line, src, []);
        match parser.line(src) {
          case LinePartial => return LinesPending(st, headers, src);
          case LineBad => return LinesFailed(st, headers, src);
          case HeadEnd(len) =>
            src := src[len..];
            return LinesDone(st, headers, src);
          case LineParsed(len, h) =>
            var st1 := SetHeader(st, h);
            src := src[len..];
            if st1.None? {
              return LinesFailed(st, headers, src);
            }
            st, headers := st1.value, headers + [h];
        }
      }
    }

    /** `decode`; a cell left empty by an error must not be asked again. */
    method Decode() returns (answer: Answer)
      requires Stable(parser) && inner.Some?
      modifies this
      ensures Called(answer, inner, src) == DecodeHead(parser, maxBufSize, old(inner.value), old(src))
    {
      var len := |src|;
      var cur := inner.value;
      inner := None;
      var size;
      if cur.val.None? {
        assert StartAt(parser.start, src, []);
        match parser.start(src) {
          case StartPartial =>
          case StartBad => return BadHead;
          case StartParsed(pos, start) =>
            cur := cur.(val := Some(start), st := cur.st.(version := start.version));
            src := src[pos..];
        }
      }
      if cur.val.Some? {
        var r := DecodeLoop(cur.st, cur.headers);
        match r {
          case LinesDone(st, headers, rest) =>
            var body := RequestLength(cur.val.value, LengthIn(st));
            if body.None? {
              return BadHead;
            }
            size := cur.consumed + len - |src|;
            answer := GotHead(cur.val.value, headers, body.value);
            cur := NEW;
          case LinesPending(st, headers, rest) =>
            size := cur.consumed + len;
            answer := NeedHead;
            cur := Inner(cur.val, st, headers, size - |src|);
          case LinesFailed(st, headers, rest) =>
            size := 0;
            answer := BadHead;
            cur := Inner(cur.val, st, headers, cur.consumed);
        }
      } else {
        answer, size := NeedHead, len;
      }
      if size >= maxBufSize {
        return TooLarge(size);
      }
      inner := Some(cur);
    }
  }
}
