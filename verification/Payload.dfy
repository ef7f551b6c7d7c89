/**
  The HTTP/1 payload decoders (`h1/decoder.rs`): a body of known length, a chunked body, and a
  body that runs to the end of the connection, read from a buffer that fills piece by piece.
*/
module Payload {
  import opened Basics

  type u8 = x: int | 0 <= x < 256
  type Bytes = seq<u8>

  const CR: u8 := 13
  const LF: u8 := 10
  const SEMICOLON: u8 := 59

  datatype ChunkedState = Size | Body | BodyCr | BodyLf | EndCr | EndLf | End

  datatype Kind = Length(remaining: nat) | Chunked(state: ChunkedState, size: nat) | UntilClose

  /** `Result<Option<PayloadItem>, _>`: an item, the end of the payload, a call for more data, or an error. */
  datatype Decoded = Chunk(data: Bytes) | EndOfPayload | NeedMore | Invalid

  // ---------------------------------------------------------------- the chunk-size line

  datatype SizeLine = Partial | Complete(pos: nat, size: nat) | BadSize

  predicate IsHex(b: u8) {
    48 <= b <= 57 || 65 <= b <= 70 || 97 <= b <= 102
  }

  function HexValue(b: u8): nat
    requires IsHex(b)
  {
    if b <= 57 then b - 48 else if b <= 70 then b - 55 else b - 87
  }

  function After(r: SizeLine): SizeLine {
    if r.Complete? then Complete(r.pos + 1, r.size) else r
  }

  function LineEnd(b: Bytes, size: nat): SizeLine
    requires b != []
  {
    if |b| == 1 then Partial else if b[1] == LF then Complete(2, size) else BadSize
  }

  /** A chunk extension is skipped up to the end of its line. */
  function SkipExtension(b: Bytes, size: nat): (r: SizeLine)
    ensures r.Complete? ==> 2 <= r.pos <= |b|
  {
    if b == [] then Partial
    else if b[0] == CR then LineEnd(b, size)
    else After(SkipExtension(b[1..], size))
  }

  /** `chunk-size [ chunk-ext ] CRLF` of section 4.1 of RFC 7230, with at most 16 digits. */
  function ParseSize(b: Bytes, digits: nat, size: nat): (r: SizeLine)
    ensures r.Complete? ==> 2 <= r.pos <= |b|
  {
    if b == [] then Partial
    else if IsHex(b[0]) then
      if digits > 15 then BadSize else After(ParseSize(b[1..], digits + 1, size * 16 + HexValue(b[0])))
    else if digits == 0 then BadSize
    else if b[0] == SEMICOLON then After(SkipExtension(b[1..], size))
    else if b[0] == CR then LineEnd(b, size)
    else BadSize
  }

  // ---------------------------------------------------------------- decoding

  datatype Step = Pending | Next(state: ChunkedState, size: nat, rest: Bytes, out: Option<Bytes>) | Error(rest: Bytes)

  /** One byte that has to be `want`. */
  function Expect(want: u8, next: ChunkedState, size: nat, buf: Bytes): Step {
    if buf == [] then Pending
    else if buf[0] == want then Next(next, size, buf[1..], None)
    else Error(buf[1..])
  }

  /** `ChunkedState::step` */
  function ChunkStep(state: ChunkedState, size: nat, buf: Bytes): (r: Step)
    ensures r.Next? && r.state != End && r.out.None? && r.rest != [] ==> |r.rest| < |buf|
  {
    match state
    case Size => (
      match ParseSize(buf, 0, 0)
      case Complete(pos, n) =>
        Next(if n > 0 then Body else EndCr, n, buf[pos..], None)
      case Partial => Pending
      case BadSize => Error(buf)
    )
    case Body =>
      if buf == [] then Next(Body, size, buf, None)
      else if size > |buf| then Next(Body, size - |buf|, [], Some(buf))
      else Next(BodyCr, 0, buf[size..], Some(buf[..size]))
    case BodyCr => Expect(CR, BodyLf, size, buf)
    case BodyLf => Expect(LF, Size, size, buf)
    case EndCr => Expect(CR, EndLf, size, buf)
    case EndLf => Expect(LF, End, size, buf)
    case End => Next(End, size, buf, None)
  }

  /** The loop of `PayloadDecoder::decode` for a chunked body. */
  function DecodeChunked(state: ChunkedState, size: nat, buf: Bytes): (Decoded, Kind, Bytes)
    decreases |buf|
  {
    match ChunkStep(state, size, buf)
    case Pending => (NeedMore, Chunked(state, size), buf)
    case Error(rest) => (Invalid, Chunked(state, size), rest)
    case Next(state', size', rest, out) =>
      if state' == End then (EndOfPayload, Chunked(End, size'), rest)
      else if out.Some? then (Chunk(out.value), Chunked(state', size'), rest)
      else if rest == [] then (NeedMore, Chunked(state', size'), rest)
      else DecodeChunked(state', size', rest)
  }

  /** `PayloadDecoder::decode` */
  function Decode(kind: Kind, buf: Bytes): (Decoded, Kind, Bytes) {
    match kind
    case Length(n) =>
      if n == 0 then (EndOfPayload, kind, buf)
      else if buf == [] then (NeedMore, kind, buf)
      else if n > |buf| then (Chunk(buf), Length(n - |buf|), [])
      else (Chunk(buf[..n]), Length(0), buf[n..])
    case Chunked(state, size) => DecodeChunked(state, size, buf)
    case UntilClose => if buf == [] then (NeedMore, kind, buf) else (Chunk(buf), kind, [])
  }

  // ---------------------------------------------------------------- draining a buffer

  datatype Status = More | Done | Broken

  /** What repeated calls hand out, and how they leave decoder and buffer. */
  datatype Drained = Drained(out: Bytes, kind: Kind, rest: Bytes, status: Status)

  /** The body state is entered only for a chunk that has bytes left. */
  predicate ValidKind(kind: Kind) {
    kind.Chunked? && kind.state.Body? ==> kind.size > 0
  }

  lemma {:induction false} ChunkedProgress(state: ChunkedState, size: nat, buf: Bytes)
    requires ValidKind(Chunked(state, size))
    ensures var (r, kind, rest) := DecodeChunked(state, size, buf);
      ValidKind(kind) && (r.Chunk? ==> |rest| < |buf| && r.data != [])
    decreases |buf|
  {
    var r := ChunkStep(state, size, buf);
    if r.Next? && r.state != End && r.out.None? && r.rest != [] {
      ChunkedProgress(r.state, r.size, r.rest);
    }
  }

  lemma DecodeProgress(kind: Kind, buf: Bytes)
    requires ValidKind(kind)
    ensures var (r, kind', rest) := Decode(kind, buf);
      ValidKind(kind') && (r.Chunk? ==> |rest| < |buf| && r.data != [])
  {
    if kind.Chunked? {
      ChunkedProgress(kind.state, kind.size, buf);
    }
  }

  function Prepend(out: Bytes, d: Drained): Drained {
    d.(out := out + d.out)
  }

  /** `decode` called until it has nothing more to hand out. */
  function Drain(kind: Kind, buf: Bytes): Drained
    requires ValidKind(kind)
    decreases |buf|
  {
    DecodeProgress(kind, buf);
    var (r, kind', rest) := Decode(kind, buf);
    match r
    case Chunk(data) => Prepend(data, Drain(kind', rest))
    case EndOfPayload => Drained([], kind', rest, Done)
    case NeedMore => Drained([], kind', rest, More)
    case Invalid => Drained([], kind', rest, Broken)
  }

  // ---------------------------------------------------------------- more input changes nothing that was decided

  lemma {:induction false} SkipExtensionStable(a: Bytes, b: Bytes, size: nat)
    requires !SkipExtension(a, size).Partial?
    ensures SkipExtension(a + b, size) == SkipExtension(a, size)
  {
    if a[0] != CR {
      assert (a + b)[1..] == a[1..] + b;
      SkipExtensionStable(a[1..], b, size);
    }
  }

  lemma {:induction false} ParseSizeStable(a: Bytes, b: Bytes, digits: nat, size: nat)
    requires !ParseSize(a, digits, size).Partial?
    ensures ParseSize(a + b, digits, size) == ParseSize(a, digits, size)
  {
    assert (a + b)[1..] == a[1..] + b;
    if IsHex(a[0]) {
      if digits <= 15 {
        ParseSizeStable(a[1..], b, digits + 1, size * 16 + HexValue(a[0]));
      }
    } else if digits > 0 && a[0] == SEMICOLON {
      SkipExtensionStable(a[1..], b, size);
    }
  }

  /** A step that is not about taking body bytes does the same with more input behind it. */
  lemma ChunkStepStable(state: ChunkedState, size: nat, a: Bytes, b: Bytes)
    requires state != Body
    ensures var r := ChunkStep(state, size, a);
      && (r.Next? ==> ChunkStep(state, size, a + b) == r.(rest := r.rest + b))
      && (r.Error? ==> ChunkStep(state, size, a + b) == Error(r.rest + b))
  {
    if state == Size && !ParseSize(a, 0, 0).Partial? {
      ParseSizeStable(a, b, 0, 0);
      assert ParseSize(a, 0, 0).Complete? ==>
        (a + b)[ParseSize(a, 0, 0).pos..] == a[ParseSize(a, 0, 0).pos..] + b;
    } else if a != [] {
      assert (a + b)[1..] == a[1..] + b;
    }
  }

  /** What one call leaves behind, completed with later input, drains like the whole. */
  ghost predicate SameLater(kind: Kind, a: Bytes, b: Bytes)
    requires ValidKind(kind)
  {
    DecodeProgress(kind, a);
    var (r, kind', rest) := Decode(kind, a);
    match r
    case Chunk(data) => Drain(kind, a + b) == Prepend(data, Drain(kind', rest + b))
    case NeedMore => Drain(kind, a + b) == Drain(kind', rest + b)
    case EndOfPayload => Drain(kind, a + b) == Drained([], kind', rest + b, Done)
    case Invalid => Drain(kind, a + b) == Drained([], kind', rest + b, Broken)
  }

  lemma LengthLater(n: nat, a: Bytes, b: Bytes)
    ensures SameLater(Length(n), a, b)
  {
    if n > |a| && a != [] && b != [] {
      if n > |a + b| {
        assert Drain(Length(n - |a|), b) == Prepend(b, Drain(Length(n - |a| - |b|), []));
      } else {
        assert (a + b)[..n] == a + b[..n - |a|] && (a + b)[n..] == b[n - |a|..];
      }
    } else if n <= |a| {
      assert (a + b)[..n] == a[..n] && (a + b)[n..] == a[n..] + b;
    }
  }

  lemma PrependTwice(a: Bytes, b: Bytes, d: Drained)
    ensures Prepend(a, Prepend(b, d)) == Prepend(a + b, d)
  {
    assert a + (b + d.out) == (a + b) + d.out;
  }

  lemma DrainBody(n: nat, b: Bytes)
    requires n > 0 && b != []
    ensures Drain(Chunked(Body, n), b) ==
      if n > |b| then Drained(b, Chunked(Body, n - |b|), [], More)
          else Prepend(b[..n], Drain(Chunked(BodyCr, 0), b[n..]))
  {
    if n > |b| {
      assert Drain(Chunked(Body, n - |b|), []) == Drained([], Chunked(Body, n - |b|), [], More);
    }
  }

  lemma BodyLaterBeyond(size: nat, a: Bytes, b: Bytes)
    requires size > |a| && a != [] && b != []
    ensures SameLater(Chunked(Body, size), a, b)
  {
    DrainBody(size, a + b);
    DrainBody(size - |a|, b);
    assert [] + b == b;
    if size <= |a + b| {
      assert (a + b)[..size] == a + b[..size - |a|] && (a + b)[size..] == b[size - |a|..];
      PrependTwice(a, b[..size - |a|], Drain(Chunked(BodyCr, 0), b[size - |a|..]));
    }
  }

  lemma BodyLaterWithin(size: nat, a: Bytes, b: Bytes)
    requires 0 < size <= |a|
    ensures SameLater(Chunked(Body, size), a, b)
  {
    DrainBody(size, a + b);
    assert (a + b)[..size] == a[..size] && (a + b)[size..] == a[size..] + b;
  }

  lemma BodyLater(size: nat, a: Bytes, b: Bytes)
    requires size > 0
    ensures SameLater(Chunked(Body, size), a, b)
  {
    if a == [] {
      assert a + b == b;
    } else if size <= |a| {
      BodyLaterWithin(size, a, b);
    } else if b == [] {
      assert a + b == a && [] + b == [];
    } else {
      BodyLaterBeyond(size, a, b);
    }
  }

  lemma SameDecodeLater(kind: Kind, a: Bytes, kind1: Kind, a1: Bytes, b: Bytes)
    requires ValidKind(kind) && ValidKind(kind1)
    requires Decode(kind, a) == Decode(kind1, a1) && Decode(kind, a + b) == Decode(kind1, a1 + b)
    requires SameLater(kind1, a1, b)
    ensures SameLater(kind, a, b)
  {}

  lemma {:induction false} ChunkedLater(state: ChunkedState, size: nat, a: Bytes, b: Bytes)
    requires ValidKind(Chunked(state, size))
    ensures SameLater(Chunked(state, size), a, b)
    decreases |a|
  {
    var kind := Chunked(state, size);
    if state == Body {
      BodyLater(size, a, b);
    } else {
      ChunkStepStable(state, size, a, b);
      var r := ChunkStep(state, size, a);
      if r.Next? && r.state != End {
        if r.rest != [] {
          ChunkedLater(r.state, r.size, r.rest, b);
          SameDecodeLater(kind, a, Chunked(r.state, r.size), r.rest, b);
        } else {
          ChunkedLaterEmpty(state, size, a, b);
        }
      }
    }
  }

  lemma SameDecodeDrain(kind: Kind, a: Bytes, kind1: Kind, a1: Bytes)
    requires ValidKind(kind) && ValidKind(kind1) && Decode(kind, a) == Decode(kind1, a1)
    ensures Drain(kind, a) == Drain(kind1, a1)
  {}

  lemma ChunkedLaterEmpty(state: ChunkedState, size: nat, a: Bytes, b: Bytes)
    requires state != Body
    requires var r := ChunkStep(state, size, a);
      r.Next? && r.state != End && r.rest == [] && ChunkStep(state, size, a + b) == r.(rest := r.rest + b)
    ensures SameLater(Chunked(state, size), a, b)
  {
    var r := ChunkStep(state, size, a);
    if b == [] {
      assert a + b == a && [] + b == [];
    } else {
      assert [] + b == b;
      ChunkedProgress(state, size, a);
      SameDecodeDrain(Chunked(state, size), a + b, Chunked(r.state, r.size), b);
    }
  }

  lemma DecodeLater(kind: Kind, a: Bytes, b: Bytes)
    requires ValidKind(kind)
    ensures SameLater(kind, a, b)
  {
    match kind
    case Length(n) => LengthLater(n, a, b);
    case Chunked(state, size) => ChunkedLater(state, size, a, b);
    case UntilClose =>
      if a != [] && b != [] {
        assert Drain(kind, b) == Prepend(b, Drain(kind, []));
      } else if a == [] {
        assert a + b == b;
      } else {
        assert a + b == a;
      }
  }

  lemma {:induction false} DrainValid(kind: Kind, buf: Bytes)
    requires ValidKind(kind)
    ensures ValidKind(Drain(kind, buf).kind)
    decreases |buf|
  {
    DecodeProgress(kind, buf);
    var (r, kind', rest) := Decode(kind, buf);
    if r.Chunk? {
      DrainValid(kind', rest);
    }
  }

  /**
    Where the input is cut does not matter: draining a first part and then the rest hands out the same
    bytes as draining the whole, for every kind of body and every input, valid or not.
  */
  lemma {:induction false} DrainSplit(kind: Kind, a: Bytes, b: Bytes)
    requires ValidKind(kind)
    ensures ValidKind(Drain(kind, a).kind)
    ensures Drain(kind, a + b) == Resumed(Drain(kind, a), b)
    decreases |a|
  {
    DrainValid(kind, a);
    DecodeProgress(kind, a);
    DecodeLater(kind, a, b);
    var (r, kind', rest) := Decode(kind, a);
    if r.Chunk? {
      DrainSplit(kind', rest, b);
      var d := Drain(kind', rest);
      if d.status.More? {
        PrependTwice(r.data, d.out, Drain(d.kind, d.rest + b));
      }
    }
  }

  /** A drain that stopped for lack of input goes on with `b`; one that ended does not look at it. */
  function Resumed(d: Drained, b: Bytes): Drained
    requires ValidKind(d.kind)
  {
    if d.status.More? then Prepend(d.out, Drain(d.kind, d.rest + b)) else d.(rest := d.rest + b)
  }

  // ---------------------------------------------------------------- sessions

  /** What happens at a decoder: bytes arrive, or its owner calls `decode`. */
  datatype Action = Feed(data: Bytes) | Poll

  datatype Session = Session(kind: Kind, buf: Bytes, log: seq<Decoded>)

  function Fed(acts: seq<Action>): Bytes {
    if acts == [] then []
    else Fed(acts[..|acts| - 1]) + (if acts[|acts| - 1].Feed? then acts[|acts| - 1].data else [])
  }

  function Run(kind: Kind, acts: seq<Action>): Session {
    if acts == [] then Session(kind, [], [])
    else
      var s := Run(kind, acts[..|acts| - 1]);
      match acts[|acts| - 1]
      case Feed(data) => s.(buf := s.buf + data)
      case Poll =>
        var (r, kind', rest) := Decode(s.kind, s.buf);
        Session(kind', rest, s.log + [r])
  }

  /** The payload bytes of a log. */
  function PayloadOf(log: seq<Decoded>): Bytes {
    if log == [] then []
    else PayloadOf(log[..|log| - 1]) + (if log[|log| - 1].Chunk? then log[|log| - 1].data else [])
  }

  /** No call has reported an error so far. */
  predicate Clean(log: seq<Decoded>) {
    Invalid !in log
  }

  /** The bytes handed out, and those still to be handed out, are those of the input as a whole. */
  ghost predicate Accounts(kind: Kind, fed: Bytes, s: Session, future: Bytes)
    requires ValidKind(kind)
  {
    ValidKind(s.kind) && Drain(kind, fed + future) == Prepend(PayloadOf(s.log), Drain(s.kind, s.buf + future))
  }

  lemma FeedAccounts(kind: Kind, fed: Bytes, s: Session, data: Bytes, future: Bytes)
    requires ValidKind(kind) && Accounts(kind, fed, s, data + future)
    ensures Accounts(kind, fed + data, s.(buf := s.buf + data), future)
  {
    assert fed + (data + future) == (fed + data) + future;
    assert s.buf + (data + future) == (s.buf + data) + future;
  }

  lemma PollAccounts(kind: Kind, fed: Bytes, s: Session, future: Bytes)
    requires ValidKind(kind) && Accounts(kind, fed, s, future) && !Decode(s.kind, s.buf).0.Invalid?
    ensures var (r, kind', rest) := Decode(s.kind, s.buf);
            Accounts(kind, fed, Session(kind', rest, s.log + [r]), future)
  {
    var (r, kind', rest) := Decode(s.kind, s.buf);
    assert (s.log + [r])[..|s.log|] == s.log;
    PollIsDrain(PayloadOf(s.log), s.kind, s.buf, future);
  }

  /**
    In every session, whatever the cuts and whenever the calls: the bytes handed out so far, followed by what
    the decoder would still hand out for the rest of the input, are what one drain of the whole input gives.
  */
  lemma {:induction false} SessionIsDrain(kind: Kind, acts: seq<Action>, future: Bytes)
    requires ValidKind(kind) && Clean(Run(kind, acts).log)
    ensures Accounts(kind, Fed(acts), Run(kind, acts), future)
  {
    if acts != [] {
      var before := acts[..|acts| - 1];
      var s := Run(kind, before);
      match acts[|acts| - 1]
      case Feed(data) =>
        SessionIsDrain(kind, before, data + future);
        FeedAccounts(kind, Fed(before), s, data, future);
      case Poll =>
        var t := Run(kind, acts);
        assert t.log[..|s.log|] == s.log && t.log[|s.log|] == Decode(s.kind, s.buf).0;
        assert Fed(before) + [] == Fed(before);
        SessionIsDrain(kind, before, future);
        PollAccounts(kind, Fed(before), s, future);
    }
  }

  lemma PollIsDrain(out: Bytes, kind: Kind, buf: Bytes, future: Bytes)
    requires ValidKind(kind) && !Decode(kind, buf).0.Invalid?
    ensures var (r, kind', rest) := Decode(kind, buf);
      && ValidKind(kind')
      && Prepend(out, Drain(kind, buf + future)) ==
         Prepend(out + (if r.Chunk? then r.data else []), Drain(kind', rest + future))
  {
    DecodeProgress(kind, buf);
    DecodeLater(kind, buf, future);
    var (r, kind', rest) := Decode(kind, buf);
    if r.Chunk? {
      var d := Drain(kind', rest + future);
      assert out + (r.data + d.out) == (out + r.data) + d.out;
    } else {
      assert out + [] == out;
      if r.EndOfPayload? {
        EndStays(kind, buf, rest + future);
      }
    }
  }

  /** After the end, every call says so again and touches nothing. */
  lemma EndStays(kind: Kind, buf: Bytes, buf': Bytes)
    requires Decode(kind, buf).0.EndOfPayload?
    ensures Decode(Decode(kind, buf).1, buf') == (EndOfPayload, Decode(kind, buf).1, buf')
  {
    if kind.Chunked? {
      ChunkedEnd(kind.state, kind.size, buf);
    }
  }

  lemma {:induction false} ChunkedEnd(state: ChunkedState, size: nat, buf: Bytes)
    requires DecodeChunked(state, size, buf).0.EndOfPayload?
    ensures DecodeChunked(state, size, buf).1.Chunked? && DecodeChunked(state, size, buf).1.state == End
    decreases |buf|
  {
    var r := ChunkStep(state, size, buf);
    if r.state != End {
      ChunkedEnd(r.state, r.size, r.rest);
    }
  }
}
