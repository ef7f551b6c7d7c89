/**
  The HTTP/1 transfer encoders (`h1/encoder.rs`) and the round trip through the payload decoders.
*/
module Transfer {
  import opened Basics
  import opened Payload

  /** `TransferEncodingKind` */
  datatype Encoding = ChunkedOut(eof: bool) | LengthOut(remaining: nat) | CloseOut

  /** One more than the largest `usize`. */
  const TWO_64: nat := 0x1_0000_0000_0000_0000

  const CRLF: Bytes := [13, 10]
  const LAST_CHUNK: Bytes := [48, 13, 10, 13, 10]

  function HexDigit(d: nat): u8
    requires d < 16
  {
    if d < 10 then 48 + d else 55 + d
  }

  /** `{:X}` */
  function Hex(n: nat): (h: Bytes)
    ensures h != []
  {
    if n < 16 then [HexDigit(n)] else Hex(n / 16) + [HexDigit(n % 16)]
  }

  /** `TransferEncoding::encode`: the new state, the bytes written and the answer. */
  function EncodePart(e: Encoding, msg: Bytes): (Encoding, Bytes, bool) {
    match e
    case CloseOut => (e, msg, msg == [])
    case ChunkedOut(eof) =>
      if eof then (e, [], true)
      else if msg == [] then (ChunkedOut(true), LAST_CHUNK, true)
      else (e, Hex(|msg|) + CRLF + msg + CRLF, false)
    case LengthOut(n) =>
      if n == 0 then (e, [], true)
      else
        var len := if n < |msg| then n else |msg|;
        (LengthOut(n - len), msg[..len], n == len)
  }

  /** `TransferEncoding::encode_eof` */
  function EncodeEof(e: Encoding): (Encoding, Bytes, bool) {
    match e
    case CloseOut => (e, [], true)
    case LengthOut(n) => (e, [], n == 0)
    case ChunkedOut(eof) => if eof then (e, [], true) else (ChunkedOut(true), LAST_CHUNK, true)
  }

  function EncodeParts(e: Encoding, msgs: seq<Bytes>): (Encoding, Bytes)
    decreases |msgs|
  {
    if msgs == [] then (e, [])
    else
      var (e1, out, _) := EncodePart(e, msgs[0]);
      var (e2, more) := EncodeParts(e1, msgs[1..]);
      (e2, out + more)
  }

  /** Everything a body of `msgs` puts on the wire, and whether closing it succeeds. */
  function EncodeBody(e: Encoding, msgs: seq<Bytes>): (Bytes, bool) {
    var (e1, out) := EncodeParts(e, msgs);
    var (_, last, ok) := EncodeEof(e1);
    (out + last, ok)
  }

  // ---------------------------------------------------------------- chunk sizes

  /** The number that hexadecimal digits stand for. */
  function HexNumber(size: nat, h: Bytes): nat
    requires forall i :: 0 <= i < |h| ==> IsHex(h[i])
    decreases |h|
  {
    if h == [] then size else HexNumber(size * 16 + HexValue(h[0]), h[1..])
  }

  lemma {:induction false} HexNumberAppend(size: nat, h: Bytes, d: u8)
    requires forall i :: 0 <= i < |h| ==> IsHex(h[i])
    requires IsHex(d)
    ensures HexNumber(size, h + [d]) == HexNumber(size, h) * 16 + HexValue(d)
    decreases |h|
  {
    if h != [] {
      assert (h + [d])[1..] == h[1..] + [d];
      HexNumberAppend(size * 16 + HexValue(h[0]), h[1..], d);
    }
  }

  lemma {:induction false} HexReads(n: nat)
    ensures forall i :: 0 <= i < |Hex(n)| ==> IsHex(Hex(n)[i])
    ensures HexNumber(0, Hex(n)) == n
  {
    if n < 16 {
      assert Hex(n)[1..] == [];
    } else {
      HexReads(n / 16);
      HexNumberAppend(0, Hex(n / 16), HexDigit(n % 16));
    }
  }

  function Pow16(k: nat): nat {
    if k == 0 then 1 else 16 * Pow16(k - 1)
  }

  lemma {:induction false} HexLength(n: nat, k: nat)
    requires k > 0 && n < Pow16(k)
    ensures |Hex(n)| <= k
  {
    if n >= 16 {
      assert k > 1;
      HexLength(n / 16, k - 1);
    }
  }

  lemma HexFits(n: nat)
    requires n < TWO_64
    ensures |Hex(n)| <= 16
  {
    assert Pow16(4) == 0x1_0000;
    assert Pow16(8) == 0x1_0000 * Pow16(4);
    assert Pow16(12) == 0x1_0000 * Pow16(8);
    assert Pow16(16) == 0x1_0000 * Pow16(12);
    HexLength(n, 16);
  }

  function Skip(r: SizeLine, k: nat): SizeLine {
    if r.Complete? then Complete(r.pos + k, r.size) else r
  }

  lemma {:induction false} ParseDigits(h: Bytes, tail: Bytes, digits: nat, size: nat)
    requires forall i :: 0 <= i < |h| ==> IsHex(h[i])
    requires digits + |h| <= 16
    ensures ParseSize(h + tail, digits, size) == Skip(ParseSize(tail, digits + |h|, HexNumber(size, h)), |h|)
  {
    if h == [] {
      assert h + tail == tail;
    } else {
      assert (h + tail)[1..] == h[1..] + tail;
      ParseDigits(h[1..], tail, digits + 1, size * 16 + HexValue(h[0]));
    }
  }

  /** The size line the encoder writes is the one the decoder reads. */
  lemma SizeLineRoundTrip(n: nat, rest: Bytes)
    requires n < TWO_64
    ensures ParseSize(Hex(n) + CRLF + rest, 0, 0) == Complete(|Hex(n)| + 2, n)
  {
    HexReads(n);
    HexFits(n);
    assert Hex(n) + CRLF + rest == Hex(n) + (CRLF + rest);
    ParseDigits(Hex(n), CRLF + rest, 0, 0);
  }

  // ---------------------------------------------------------------- chunked bodies

  lemma DrainStep(state: ChunkedState, size: nat, buf: Bytes)
    requires ValidKind(Chunked(state, size))
    requires var r := ChunkStep(state, size, buf); r.Next? && r.state != End && r.out.None?
    ensures var r := ChunkStep(state, size, buf);
      ValidKind(Chunked(r.state, r.size)) && Drain(Chunked(state, size), buf) == Drain(Chunked(r.state, r.size), r.rest)
  {}

  lemma DrainChunkBody(m: Bytes, rest: Bytes)
    requires m != []
    ensures Drain(Chunked(Body, |m|), m + CRLF + rest) == Prepend(m, Drain(Chunked(Size, 0), rest))
  {
    var b := m + CRLF + rest;
    DrainBody(|m|, b);
    assert b[..|m|] == m && b[|m|..] == CRLF + rest;
    DrainStep(BodyCr, 0, CRLF + rest);
    assert (CRLF + rest)[1..] == [LF] + rest;
    DrainStep(BodyLf, 0, [LF] + rest);
    assert ([LF] + rest)[1..] == rest;
  }

  lemma DrainChunk(m: Bytes, rest: Bytes)
    requires 0 < |m| < TWO_64
    ensures Drain(Chunked(Size, 0), Hex(|m|) + CRLF + m + CRLF + rest) == Prepend(m, Drain(Chunked(Size, 0), rest))
  {
    var b := m + CRLF + rest;
    var buf := Hex(|m|) + CRLF + m + CRLF + rest;
    assert buf == Hex(|m|) + CRLF + b;
    SizeLineRoundTrip(|m|, b);
    assert buf[|Hex(|m|)| + 2..] == b;
    DrainStep(Size, 0, buf);
    DrainChunkBody(m, rest);
  }

  lemma DrainEnd(rest: Bytes)
    ensures Drain(Chunked(EndCr, 0), CRLF + rest) == Drained([], Chunked(End, 0), rest, Done)
  {
    DrainStep(EndCr, 0, CRLF + rest);
    assert (CRLF + rest)[1..] == [LF] + rest;
    assert ([LF] + rest)[1..] == rest;
  }

  lemma DrainLast(rest: Bytes)
    ensures Drain(Chunked(Size, 0), LAST_CHUNK + rest) == Drained([], Chunked(End, 0), rest, Done)
  {
    var buf := LAST_CHUNK + rest;
    assert buf == Hex(0) + CRLF + (CRLF + rest);
    SizeLineRoundTrip(0, CRLF + rest);
    assert buf[3..] == CRLF + rest;
    DrainStep(Size, 0, buf);
    DrainEnd(rest);
  }

  /** The chunks before the first empty one, joined. */
  function BodyOf(msgs: seq<Bytes>): Bytes {
    if msgs == [] || msgs[0] == [] then [] else msgs[0] + BodyOf(msgs[1..])
  }

  lemma {:induction false} ClosedWritesNothing(msgs: seq<Bytes>)
    ensures EncodeParts(ChunkedOut(true), msgs) == (ChunkedOut(true), [])
  {
    if msgs != [] {
      ClosedWritesNothing(msgs[1..]);
      assert EncodePart(ChunkedOut(true), msgs[0]).1 + EncodeParts(ChunkedOut(true), msgs[1..]).1 == [];
    }
  }

  /**
    Whatever chunks are encoded and closed, the decoder gets the chunks before the first empty one back,
    ends, and leaves the bytes behind the body alone.
  */
  lemma {:induction false} ChunkedRoundTrip(msgs: seq<Bytes>, trailing: Bytes)
    requires forall m :: m in msgs ==> |m| < TWO_64
    ensures var (wire, ok) := EncodeBody(ChunkedOut(false), msgs);
      ok && Drain(Chunked(Size, 0), wire + trailing) == Drained(BodyOf(msgs), Chunked(End, 0), trailing, Done)
  {
    var (wire, ok) := EncodeBody(ChunkedOut(false), msgs);
    if msgs == [] {
      assert wire == LAST_CHUNK;
      DrainLast(trailing);
    } else if msgs[0] == [] {
      ClosedWritesNothing(msgs[1..]);
      assert wire == LAST_CHUNK;
      DrainLast(trailing);
    } else {
      var m := msgs[0];
      ChunkedRoundTrip(msgs[1..], trailing);
      FirstChunk(msgs);
      var (rest, _) := EncodeBody(ChunkedOut(false), msgs[1..]);
      Assoc(Hex(|m|) + CRLF + m + CRLF, rest, trailing);
      DrainChunk(m, rest + trailing);
    }
  }

  lemma FirstChunk(msgs: seq<Bytes>)
    requires msgs != [] && msgs[0] != []
    ensures var (rest, ok) := EncodeBody(ChunkedOut(false), msgs[1..]);
      EncodeBody(ChunkedOut(false), msgs) == (Hex(|msgs[0]|) + CRLF + msgs[0] + CRLF + rest, ok)
  {
    var (e1, more) := EncodeParts(ChunkedOut(false), msgs[1..]);
    Assoc(Hex(|msgs[0]|) + CRLF + msgs[0] + CRLF, more, EncodeEof(e1).1);
  }

  /** The body is closed: nothing more will be written. */
  predicate Closed(e: Encoding) {
    match e
    case ChunkedOut(eof) => eof
    case LengthOut(n) => n == 0
    case CloseOut => false
  }

  /** The encoder answers that it is done exactly if it is closed, or was told to by an empty piece. */
  lemma AnswersDone(e: Encoding, msg: Bytes, more: Bytes)
    ensures var (e', _, done) := EncodePart(e, msg);
      && (done <==> Closed(e') || (e.CloseOut? && msg == []))
      && (Closed(e') ==> EncodePart(e', more) == (e', [], true))
  {}

  // ---------------------------------------------------------------- bodies of known length

  /** What the encoder of a body of `n` bytes lets through: the first `n` bytes. */
  lemma {:induction false} LengthWrites(n: nat, msgs: seq<Bytes>)
    ensures var (e, out) := EncodeParts(LengthOut(n), msgs);
      var all := Flatten(msgs);
      var len := if n < |all| then n else |all|;
      e == LengthOut(n - len) && out == all[..len]
    decreases |msgs|
  {
    if msgs != [] {
      var (e1, out, _) := EncodePart(LengthOut(n), msgs[0]);
      LengthWrites(e1.remaining, msgs[1..]);
      assert Flatten(msgs) == msgs[0] + Flatten(msgs[1..]);
    }
  }

  /**
    A body announced with `n` bytes can be closed exactly when at least `n` bytes were offered; then the decoder
    for `n` bytes gets the first `n` of them back, ends, and leaves the bytes behind the body alone.
  */
  lemma LengthRoundTrip(n: nat, msgs: seq<Bytes>, trailing: Bytes)
    ensures var (wire, ok) := EncodeBody(LengthOut(n), msgs);
      && (ok <==> |Flatten(msgs)| >= n)
      && (ok <==> |wire| == n)
      && (ok ==>
            && wire == Flatten(msgs)[..n]
            && Drain(Length(n), wire + trailing) == Drained(wire, Length(0), trailing, Done))
  {
    LengthWrites(n, msgs);
    var (wire, ok) := EncodeBody(LengthOut(n), msgs);
    assert wire == EncodeParts(LengthOut(n), msgs).1;
    if ok {
      DrainLength(n, wire, trailing);
    }
  }

  lemma DrainLength(n: nat, body: Bytes, trailing: Bytes)
    requires |body| == n
    ensures Drain(Length(n), body + trailing) == Drained(body, Length(0), trailing, Done)
  {
    if n == 0 {
      assert body + trailing == trailing;
    } else {
      var buf := body + trailing;
      assert buf[..n] == body && buf[n..] == trailing;
      assert Drain(Length(0), trailing) == Drained([], Length(0), trailing, Done);
      assert body + [] == body;
    }
  }

  // ---------------------------------------------------------------- any schedule of arrivals and calls

  /** If the whole input decodes to the end of the payload, no call in any session reports an error. */
  lemma {:induction false} SessionClean(kind: Kind, acts: seq<Action>, future: Bytes)
    requires ValidKind(kind) && Drain(kind, Fed(acts) + future).status.Done?
    ensures Clean(Run(kind, acts).log)
  {
    if acts != [] {
      var before := acts[..|acts| - 1];
      match acts[|acts| - 1]
      case Feed(data) =>
        assert Fed(before) + (data + future) == Fed(acts) + future;
        SessionClean(kind, before, data + future);
      case Poll =>
        assert Fed(before) + future == Fed(acts) + future;
        SessionClean(kind, before, future);
        SessionIsDrain(kind, before, future);
        var s := Run(kind, before);
        DecodeLater(s.kind, s.buf, future);
    }
  }

  predicate AtEnd(kind: Kind) {
    kind == Length(0) || (kind.Chunked? && kind.state == End)
  }

  lemma AtEndStays(kind: Kind, buf: Bytes)
    requires AtEnd(kind)
    ensures Decode(kind, buf) == (EndOfPayload, kind, buf)
  {}

  lemma EndIsAtEnd(kind: Kind, buf: Bytes)
    requires Decode(kind, buf).0.EndOfPayload?
    ensures AtEnd(Decode(kind, buf).1)
  {
    if kind.Chunked? {
      ChunkedEnd(kind.state, kind.size, buf);
    }
  }

  lemma {:induction false} EndIsFinal(kind: Kind, acts: seq<Action>)
    ensures EndOfPayload in Run(kind, acts).log ==> AtEnd(Run(kind, acts).kind)
    ensures forall i, j :: 0 <= i < j < |Run(kind, acts).log| && Run(kind, acts).log[i].EndOfPayload?
              ==> Run(kind, acts).log[j].EndOfPayload?
  {
    if acts != [] {
      var before := acts[..|acts| - 1];
      EndIsFinal(kind, before);
      if acts[|acts| - 1].Poll? {
        var s := Run(kind, before);
        if EndOfPayload in s.log {
          AtEndStays(s.kind, s.buf);
        } else if Decode(s.kind, s.buf).0.EndOfPayload? {
          EndIsAtEnd(s.kind, s.buf);
        }
      }
    }
  }

  /**
    A session over an input that decodes completely to `body` with `trailing` behind it: no call fails, what is
    handed out is a prefix of the body, the end is reported only after all of it and then on every call, the
    bytes behind the body stay in the buffer, and once all input is there no call asks for more.
  */
  lemma SessionDelivers(kind: Kind, body: Bytes, trailing: Bytes, acts: seq<Action>, future: Bytes)
    requires ValidKind(kind)
    requires var d := Drain(kind, Fed(acts) + future); d.status.Done? && d.out == body && d.rest == trailing
    ensures var s := Run(kind, acts);
      && Clean(s.log)
      && PayloadOf(s.log) <= body
      && (EndOfPayload in s.log ==>
            PayloadOf(s.log) == body && s.buf + future == trailing
                && Decode(s.kind, s.buf) == (EndOfPayload, s.kind, s.buf))
      && (future == [] ==> !Decode(s.kind, s.buf).0.NeedMore?)
      && (forall i, j :: 0 <= i < j < |s.log| && s.log[i].EndOfPayload? ==> s.log[j].EndOfPayload?)
  {
    SessionClean(kind, acts, future);
    SessionIsDrain(kind, acts, future);
    EndIsFinal(kind, acts);
    EndDelivers(Run(kind, acts), Drain(kind, Fed(acts) + future), future);
  }

  /** What a session says of its payload once the whole input is known to end. */
  lemma EndDelivers(s: Session, d: Drained, future: Bytes)
    requires ValidKind(s.kind) && d == Prepend(PayloadOf(s.log), Drain(s.kind, s.buf + future)) && d.status.Done?
    requires EndOfPayload in s.log ==> AtEnd(s.kind)
    ensures PayloadOf(s.log) <= d.out
    ensures EndOfPayload in s.log ==>
      PayloadOf(s.log) == d.out && s.buf + future == d.rest && Decode(s.kind, s.buf) == (EndOfPayload, s.kind, s.buf)
    ensures future == [] ==> !Decode(s.kind, s.buf).0.NeedMore?
  {
    if EndOfPayload in s.log {
      AtEndStays(s.kind, s.buf + future);
      AtEndStays(s.kind, s.buf);
    }
    if future == [] {
      assert s.buf + future == s.buf;
    }
  }

  /** One more call when all input has arrived hands out at least one byte or the end. */
  lemma PollAdvances(kind: Kind, acts: seq<Action>)
    requires ValidKind(kind) && Drain(kind, Fed(acts)).status.Done?
    ensures var (s, t) := (Run(kind, acts), Run(kind, acts + [Poll]));
      && Fed(acts + [Poll]) == Fed(acts)
      && |t.log| == |s.log| + 1 && t.log[..|s.log|] == s.log
      && (t.log[|s.log|].EndOfPayload? || |PayloadOf(t.log)| > |PayloadOf(s.log)|)
  {
    assert (acts + [Poll])[..|acts|] == acts;
    assert Fed(acts) + [] == Fed(acts);
    SessionClean(kind, acts, []);
    SessionIsDrain(kind, acts, []);
    var s := Run(kind, acts);
    assert s.buf + [] == s.buf;
    DecodeProgress(s.kind, s.buf);
  }

  function Polls(n: nat): (acts: seq<Action>)
    ensures |acts| == n
  {
    if n == 0 then [] else Polls(n - 1) + [Poll]
  }

  /** When all input has arrived, every call hands out a byte or more until the end is reported. */
  lemma {:induction false} PollingAdvances(kind: Kind, acts: seq<Action>, n: nat)
    requires ValidKind(kind) && Drain(kind, Fed(acts)).status.Done?
    ensures var s := Run(kind, acts + Polls(n));
      && Fed(acts + Polls(n)) == Fed(acts)
      && (EndOfPayload in s.log || |PayloadOf(s.log)| >= n)
  {
    if n == 0 {
      assert acts + Polls(0) == acts;
    } else {
      PollingAdvances(kind, acts, n - 1);
      var before := acts + Polls(n - 1);
      assert acts + Polls(n) == before + [Poll];
      PollAdvances(kind, before);
      LogGrows(Run(kind, before).log, Run(kind, acts + Polls(n)).log);
    }
  }

  lemma LogGrows(l: seq<Decoded>, l': seq<Decoded>)
    requires |l'| == |l| + 1 && l'[..|l|] == l
    ensures EndOfPayload in l || l'[|l|].EndOfPayload? ==> EndOfPayload in l'
  {
    assert l' == l + [l'[|l|]];
  }

  /** So as many calls as the body has bytes, and one more, reach the end of the payload. */
  lemma PollingEnds(kind: Kind, acts: seq<Action>)
    requires ValidKind(kind) && Drain(kind, Fed(acts)).status.Done?
    ensures EndOfPayload in Run(kind, acts + Polls(|Drain(kind, Fed(acts)).out| + 1)).log
  {
    var d := Drain(kind, Fed(acts));
    var all := acts + Polls(|d.out| + 1);
    PollingAdvances(kind, acts, |d.out| + 1);
    assert Fed(all) + [] == Fed(all);
    SessionDelivers(kind, d.out, d.rest, all, []);
  }

  /** The chunked round trip for every way of cutting the input and scheduling the calls. */
  lemma ChunkedSession(msgs: seq<Bytes>, trailing: Bytes, acts: seq<Action>, future: Bytes)
    requires forall m :: m in msgs ==> |m| < TWO_64
    requires Fed(acts) + future == EncodeBody(ChunkedOut(false), msgs).0 + trailing
    ensures var s := Run(Chunked(Size, 0), acts);
      && Clean(s.log)
      && PayloadOf(s.log) <= BodyOf(msgs)
      && (EndOfPayload in s.log ==>
            && PayloadOf(s.log) == BodyOf(msgs) && s.buf + future == trailing
            && Decode(s.kind, s.buf) == (EndOfPayload, s.kind, s.buf))
      && (future == [] ==> !Decode(s.kind, s.buf).0.NeedMore?)
      && (forall i, j :: 0 <= i < j < |s.log| && s.log[i].EndOfPayload? ==> s.log[j].EndOfPayload?)
  {
    ChunkedRoundTrip(msgs, trailing);
    SessionDelivers(Chunked(Size, 0), BodyOf(msgs), trailing, acts, future);
  }
}
