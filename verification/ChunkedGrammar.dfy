/**
  Chunked bodies by their grammar (section 4.1 of RFC 7230, without trailers): the decoder accepts exactly these, and
  reports an error exactly when what it has seen cannot become one.
*/
module ChunkedGrammar {
  import opened Basics
  import opened Payload
  import opened Transfer

  // ---------------------------------------------------------------- the grammar

  /** `chunk-size [ chunk-ext ] CRLF`, with at most 16 digits. */
  datatype ChunkLine = ChunkLine(digits: Bytes, ext: Bytes)

  predicate LegalLine(l: ChunkLine) {
    && 1 <= |l.digits| <= 16 && (forall i :: 0 <= i < |l.digits| ==> IsHex(l.digits[i]))
    && (l.ext != [] ==> l.ext[0] == SEMICOLON && CR !in l.ext)
  }

  function LineBytes(l: ChunkLine): Bytes {
    l.digits + l.ext + CRLF
  }

  function SizeOf(l: ChunkLine): nat
    requires LegalLine(l)
  {
    HexNumber(0, l.digits)
  }

  datatype Piece = Piece(line: ChunkLine, data: Bytes)

  predicate LegalPiece(p: Piece) {
    LegalLine(p.line) && SizeOf(p.line) == |p.data| > 0
  }

  /** `chunk` */
  function PieceBytes(p: Piece): Bytes {
    LineBytes(p.line) + (p.data + CRLF)
  }

  /** Chunks, the line of the last chunk, and the empty line at the end. */
  datatype ChunkedBody = ChunkedBody(pieces: seq<Piece>, last: ChunkLine)

  ghost predicate LegalBody(b: ChunkedBody) {
    && (forall i :: 0 <= i < |b.pieces| ==> LegalPiece(b.pieces[i]))
    && LegalLine(b.last) && SizeOf(b.last) == 0
  }

  function BodyBytes(b: ChunkedBody): Bytes
    decreases |b.pieces|
  {
    if b.pieces == [] then LineBytes(b.last) + CRLF
    else PieceBytes(b.pieces[0]) + BodyBytes(b.(pieces := b.pieces[1..]))
  }

  function DataOf(b: ChunkedBody): Bytes
    decreases |b.pieces|
  {
    if b.pieces == [] then [] else b.pieces[0].data + DataOf(b.(pieces := b.pieces[1..]))
  }

  // ---------------------------------------------------------------- every legal body is accepted

  lemma {:induction false} SkipsTo(ext: Bytes, tail: Bytes, size: nat)
    requires CR !in ext
    ensures SkipExtension(ext + CRLF + tail, size) == Complete(|ext| + 2, size)
  {
    var b := ext + CRLF + tail;
    if ext == [] {
      assert b == CRLF + tail;
    } else {
      assert b[0] == ext[0] && ext[0] in ext && b[1..] == ext[1..] + CRLF + tail;
      SkipsTo(ext[1..], tail, size);
    }
  }

  lemma LineTail(l: ChunkLine, tail: Bytes)
    requires LegalLine(l)
    ensures ParseSize(l.ext + CRLF + tail, |l.digits|, SizeOf(l)) == Complete(|l.ext| + 2, SizeOf(l))
  {
    var b := l.ext + CRLF + tail;
    if l.ext == [] {
      assert b == CRLF + tail;
    } else {
      assert b[0] == SEMICOLON && b[1..] == l.ext[1..] + CRLF + tail;
      SkipsTo(l.ext[1..], tail, SizeOf(l));
    }
  }

  lemma LineReads(l: ChunkLine, tail: Bytes)
    requires LegalLine(l)
    ensures ParseSize(LineBytes(l) + tail, 0, 0) == Complete(|LineBytes(l)|, SizeOf(l))
  {
    assert LineBytes(l) + tail == l.digits + (l.ext + CRLF + tail);
    ParseDigits(l.digits, l.ext + CRLF + tail, 0, 0);
    LineTail(l, tail);
  }

  lemma PieceDrains(p: Piece, tail: Bytes)
    requires LegalPiece(p)
    ensures Drain(Chunked(Size, 0), PieceBytes(p) + tail) == Prepend(p.data, Drain(Chunked(Size, 0), tail))
  {
    var behind := p.data + CRLF + tail;
    var buf := PieceBytes(p) + tail;
    assert buf == LineBytes(p.line) + behind;
    LineReads(p.line, behind);
    assert buf[|LineBytes(p.line)|..] == behind;
    DrainStep(Size, 0, buf);
    DrainChunkBody(p.data, tail);
  }

  lemma LastDrains(l: ChunkLine, tail: Bytes)
    requires LegalLine(l) && SizeOf(l) == 0
    ensures Drain(Chunked(Size, 0), LineBytes(l) + CRLF + tail) == Drained([], Chunked(End, 0), tail, Done)
  {
    var buf := LineBytes(l) + CRLF + tail;
    assert buf == LineBytes(l) + (CRLF + tail);
    LineReads(l, CRLF + tail);
    assert buf[|LineBytes(l)|..] == CRLF + tail;
    DrainStep(Size, 0, buf);
    DrainEnd(tail);
  }

  /** A legal body followed by anything is read as its data, ends, and leaves what follows. */
  lemma {:induction false} LegalIsAccepted(b: ChunkedBody, tail: Bytes)
    requires LegalBody(b)
    ensures Drain(Chunked(Size, 0), BodyBytes(b) + tail) == Drained(DataOf(b), Chunked(End, 0), tail, Done)
    decreases |b.pieces|
  {
    if b.pieces == [] {
      LastDrains(b.last, tail);
    } else {
      var rest := b.(pieces := b.pieces[1..]);
      LegalIsAccepted(rest, tail);
      Assoc(PieceBytes(b.pieces[0]), BodyBytes(rest), tail);
      PieceDrains(b.pieces[0], BodyBytes(rest) + tail);
    }
  }

  // ---------------------------------------------------------------- nothing else is

  lemma {:induction false} SkippedIs(b: Bytes, size: nat)
    requires SkipExtension(b, size).Complete?
    ensures var r := SkipExtension(b, size);
      r.size == size && r.pos >= 2 && b[r.pos - 2..r.pos] == CRLF && CR !in b[..r.pos - 2]
  {
    if b[0] == CR {
      assert b[..0] == [] && b[0..2] == CRLF;
    } else {
      SkippedIs(b[1..], size);
      var r := SkipExtension(b, size);
      assert b[..r.pos - 2] == [b[0]] + b[1..][..r.pos - 3];
      assert b[r.pos - 2..r.pos] == b[1..][r.pos - 3..r.pos - 1];
    }
  }

  /** What a size line that was read to its end consists of. */
  ghost predicate Consists(b: Bytes, digits: nat, size: nat, h: Bytes, ext: Bytes) {
    var r := ParseSize(b, digits, size);
    && r.Complete? && digits + |h| <= 16 && digits + |h| >= 1 && (forall i :: 0 <= i < |h| ==> IsHex(h[i]))
    && (ext != [] ==> ext[0] == SEMICOLON && CR !in ext)
    && r.size == HexNumber(size, h) && b[..r.pos] == h + ext + CRLF
  }

  lemma {:induction false} ParsedIs(b: Bytes, digits: nat, size: nat) returns (h: Bytes, ext: Bytes)
    requires ParseSize(b, digits, size).Complete? && digits <= 16
    ensures Consists(b, digits, size, h, ext)
  {
    var r := ParseSize(b, digits, size);
    h, ext := [], [];
    if IsHex(b[0]) {
      var more, e := ParsedIs(b[1..], digits + 1, size * 16 + HexValue(b[0]));
      h, ext := [b[0]] + more, e;
      HexMore(b, digits, size, more, ext);
    } else if b[0] == SEMICOLON {
      SkippedIs(b[1..], size);
      ext := b[..r.pos - 2];
      assert ext == [b[0]] + b[1..][..r.pos - 3];
      assert b[r.pos - 2..r.pos] == b[1..][r.pos - 3..r.pos - 1];
      assert b[..r.pos] == [] + ext + CRLF;
    } else {
      assert b[..2] == CRLF && [] + [] + CRLF == CRLF;
    }
  }

  lemma HexMore(b: Bytes, digits: nat, size: nat, h: Bytes, ext: Bytes)
    requires b != [] && IsHex(b[0]) && ParseSize(b, digits, size).Complete?
    requires Consists(b[1..], digits + 1, size * 16 + HexValue(b[0]), h, ext)
    ensures Consists(b, digits, size, [b[0]] + h, ext)
  {
    var r := ParseSize(b, digits, size);
    assert b[..r.pos] == [b[0]] + b[1..][..r.pos - 1];
    assert ([b[0]] + h)[1..] == h;
    assert [b[0]] + (h + ext + CRLF) == [b[0]] + h + ext + CRLF;
  }

  /** A size line as it was read. */
  lemma LineRead(b: Bytes) returns (l: ChunkLine)
    requires ParseSize(b, 0, 0).Complete?
    ensures LegalLine(l) && SizeOf(l) == ParseSize(b, 0, 0).size && b[..ParseSize(b, 0, 0).pos] == LineBytes(l)
  {
    var h, ext := ParsedIs(b, 0, 0);
    l := ChunkLine(h, ext);
  }

  lemma ExpectedThere(want: u8, next: ChunkedState, state: ChunkedState, buf: Bytes)
    requires (state == BodyCr && want == CR && next == BodyLf) || (state == BodyLf && want == LF && next == Size)
          || (state == EndCr && want == CR && next == EndLf)
    requires Drain(Chunked(state, 0), buf).status.Done?
    ensures buf != [] && buf[0] == want && Drain(Chunked(state, 0), buf) == Drain(Chunked(next, 0), buf[1..])
  {
    if buf != [] && buf[0] == want {
      DrainStep(state, 0, buf);
    }
  }

  lemma TwoBytes(buf: Bytes)
    requires buf != [] && buf[0] == CR && buf[1..] != [] && buf[1..][0] == LF
    ensures |buf| >= 2 && buf[..2] == CRLF && buf[1..][1..] == buf[2..]
  {}

  /** Behind a chunk's data there is the end of a line. */
  lemma AfterData(buf: Bytes, d: Drained)
    requires d == Drain(Chunked(BodyCr, 0), buf) && d.status.Done?
    ensures |buf| >= 2 && buf[..2] == CRLF && d == Drain(Chunked(Size, 0), buf[2..])
  {
    ExpectedThere(CR, BodyLf, BodyCr, buf);
    var tail := buf[1..];
    ExpectedThere(LF, Size, BodyLf, tail);
    TwoBytes(buf);
  }

  lemma LastByte(buf: Bytes)
    requires Drain(Chunked(EndLf, 0), buf).status.Done?
    ensures buf != [] && buf[0] == LF && Drain(Chunked(EndLf, 0), buf) == Drained([], Chunked(End, 0), buf[1..], Done)
  {}

  lemma AtTheEnd(buf: Bytes, d: Drained)
    requires d == Drain(Chunked(EndCr, 0), buf) && d.status.Done?
    ensures |buf| >= 2 && buf[..2] == CRLF && d == Drained([], Chunked(End, 0), buf[2..], Done)
  {
    ExpectedThere(CR, EndLf, EndCr, buf);
    var tail := buf[1..];
    LastByte(tail);
    TwoBytes(buf);
  }

  lemma EnoughData(n: nat, buf: Bytes, d: Drained) returns (tail: Bytes, e: Drained)
    requires n > 0 && d == Drain(Chunked(Body, n), buf) && d.status.Done?
    ensures n <= |buf| && tail == buf[n..] && e == Drain(Chunked(BodyCr, 0), tail) && e.status.Done?
    ensures d == Prepend(buf[..n], e)
  {
    NoDataWaits(n, buf, d);
    DrainBody(n, buf);
    tail := buf[n..];
    e := Drain(Chunked(BodyCr, 0), tail);
  }

  lemma DataThere(n: nat, buf: Bytes, d: Drained)
    requires n > 0 && d == Drain(Chunked(Body, n), buf) && d.status.Done?
    ensures |buf| >= n + 2 && buf[n..n + 2] == CRLF
    ensures d == Prepend(buf[..n], Drain(Chunked(Size, 0), buf[n + 2..]))
  {
    var tail, e := EnoughData(n, buf, d);
    AfterData(tail, e);
    TailOf(buf, n, tail);
  }

  lemma TailOf(buf: Bytes, n: nat, tail: Bytes)
    requires n <= |buf| && tail == buf[n..] && |tail| >= 2
    ensures tail[2..] == buf[n + 2..] && tail[..2] == buf[n..n + 2]
  {}

  lemma NoDataWaits(n: nat, buf: Bytes, d: Drained)
    requires n > 0 && d == Drain(Chunked(Body, n), buf) && d.status.Done?
    ensures buf != []
  {}

  /** One chunk off the front of an input that is read to its end. */
  lemma SizeThere(input: Bytes) returns (l: ChunkLine)
    requires Drain(Chunked(Size, 0), input).status.Done?
    ensures LegalLine(l) && |LineBytes(l)| <= |input| && input[..|LineBytes(l)|] == LineBytes(l)
    ensures var (n, behind) := (SizeOf(l), input[|LineBytes(l)|..]);
      Drain(Chunked(Size, 0), input) == Drain(Chunked(if n > 0 then Body else EndCr, n), behind)
  {
    l := LineRead(input);
    DrainStep(Size, 0, input);
  }

  /** A last chunk and the end of the body. */
  lemma EndsLegal(input: Bytes, l: ChunkLine, behind: Bytes, rest: Bytes) returns (b: ChunkedBody)
    requires LegalLine(l) && SizeOf(l) == 0 && input == LineBytes(l) + behind
    requires |behind| >= 2 && behind[..2] == CRLF && rest == behind[2..]
    ensures LegalBody(b) && input == BodyBytes(b) + rest && DataOf(b) == []
  {
    b := ChunkedBody([], l);
    assert behind == CRLF + rest;
    Assoc(LineBytes(l), CRLF, rest);
  }

  /** A chunk in front of a legal body. */
  lemma GoesOnLegal(input: Bytes, l: ChunkLine, behind: Bytes, n: nat, more: ChunkedBody, rest: Bytes)
    returns (b: ChunkedBody)
    requires LegalLine(l) && SizeOf(l) == n > 0 && input == LineBytes(l) + behind
    requires |behind| >= n + 2 && behind[n..n + 2] == CRLF
    requires LegalBody(more) && behind[n + 2..] == BodyBytes(more) + rest
    ensures LegalBody(b) && input == BodyBytes(b) + rest && DataOf(b) == behind[..n] + DataOf(more)
  {
    var p := Piece(l, behind[..n]);
    b := ChunkedBody([p] + more.pieces, more.last);
    assert b.(pieces := b.pieces[1..]) == more;
    assert behind == p.data + CRLF + behind[n + 2..];
    Assoc(LineBytes(l), p.data + CRLF, behind[n + 2..]);
    Assoc(PieceBytes(p), BodyBytes(more), rest);
  }

  /** What is read to its end is a legal body, and its data is what was handed out. */
  lemma {:induction false} AcceptedIsLegal(input: Bytes, d: Drained) returns (b: ChunkedBody)
    requires d == Drain(Chunked(Size, 0), input) && d.status.Done?
    ensures LegalBody(b) && input == BodyBytes(b) + d.rest && d.out == DataOf(b)
    decreases |input|
  {
    var l := SizeThere(input);
    var n, behind := SizeOf(l), input[|LineBytes(l)|..];
    assert input == LineBytes(l) + behind;
    if n == 0 {
      AtTheEnd(behind, d);
      b := EndsLegal(input, l, behind, d.rest);
    } else {
      DataThere(n, behind, d);
      var tail := behind[n + 2..];
      var more := AcceptedIsLegal(tail, Drain(Chunked(Size, 0), tail));
      b := GoesOnLegal(input, l, behind, n, more, d.rest);
    }
  }

  // ---------------------------------------------------------------- errors

  /** The decoder has not decided: it waits for more of a size line, or for the next byte. */
  ghost predicate Stuck(kind: Kind, rest: Bytes) {
    kind.Chunked? && ValidKind(kind)
    && if kind.state.Size? then ParseSize(rest, 0, 0).Partial? else rest == [] && !kind.state.End?
  }

  lemma StepStuck(state: ChunkedState, size: nat, buf: Bytes)
    requires ValidKind(Chunked(state, size)) && ChunkStep(state, size, buf).Pending?
    ensures Stuck(Chunked(state, size), buf)
  {}

  lemma NextStuck(state: ChunkedState, size: nat)
    requires ValidKind(Chunked(state, size)) && state != End
    ensures Stuck(Chunked(state, size), [])
  {}

  lemma {:induction false} DecodeStuck(state: ChunkedState, size: nat, buf: Bytes)
    requires ValidKind(Chunked(state, size)) && DecodeChunked(state, size, buf).0.NeedMore?
    ensures var (_, kind, rest) := DecodeChunked(state, size, buf); Stuck(kind, rest)
    decreases |buf|
  {
    var r := ChunkStep(state, size, buf);
    if r.Pending? {
      StepStuck(state, size, buf);
    } else if r.rest == [] {
      NextStuck(r.state, r.size);
    } else {
      DecodeStuck(r.state, r.size, r.rest);
    }
  }

  lemma {:induction false} DrainStuck(kind: Kind, buf: Bytes)
    requires kind.Chunked? && ValidKind(kind) && Drain(kind, buf).status.More?
    ensures var d := Drain(kind, buf); Stuck(d.kind, d.rest)
    decreases |buf|
  {
    DecodeProgress(kind, buf);
    ChunkedStays(kind.state, kind.size, buf);
    var (r, kind', rest) := Decode(kind, buf);
    if r.Chunk? {
      DrainStuck(kind', rest);
    } else {
      DecodeStuck(kind.state, kind.size, buf);
    }
  }

  lemma {:induction false} ChunkedStays(state: ChunkedState, size: nat, buf: Bytes)
    ensures DecodeChunked(state, size, buf).1.Chunked?
    decreases |buf|
  {
    var r := ChunkStep(state, size, buf);
    if r.Next? && r.state != End && r.out.None? && r.rest != [] {
      ChunkedStays(r.state, r.size, r.rest);
    }
  }

  lemma {:induction false} FinishExtension(b: Bytes, size: nat) returns (tail: Bytes)
    requires SkipExtension(b, size).Partial?
    ensures SkipExtension(b + tail, size).Complete?
    ensures SkipExtension(b + tail, size).pos == |b + tail|
  {
    if b == [] {
      tail := CRLF;
      assert b + tail == CRLF;
    } else if b[0] == CR {
      tail := [LF];
    } else {
      tail := FinishExtension(b[1..], size);
      assert (b + tail)[1..] == b[1..] + tail;
    }
  }

  /** A size line that is not finished can be. */
  lemma {:induction false} FinishLine(b: Bytes, digits: nat, size: nat) returns (tail: Bytes)
    requires ParseSize(b, digits, size).Partial? && digits <= 16
    ensures ParseSize(b + tail, digits, size).Complete?
    ensures ParseSize(b + tail, digits, size).pos == |b + tail|
  {
    if b == [] {
      tail := if digits == 0 then [48] + CRLF else CRLF;
      assert b + tail == tail;
      if digits == 0 {
        assert tail[1..] == CRLF;
      }
    } else if IsHex(b[0]) {
      tail := FinishLine(b[1..], digits + 1, size * 16 + HexValue(b[0]));
      assert (b + tail)[1..] == b[1..] + tail;
    } else if b[0] == SEMICOLON {
      tail := FinishExtension(b[1..], size);
      assert (b + tail)[1..] == b[1..] + tail;
    } else {
      tail := [LF];
    }
  }

  function Zeros(n: nat): Bytes {
    seq(n, _ => 0)
  }

  /** Behind a size line that says `n`, this ends a body. */
  lemma FinishBody(n: nat) returns (tail: Bytes)
    ensures ValidKind(Chunked(if n > 0 then Body else EndCr, n))
    ensures Drain(Chunked(if n > 0 then Body else EndCr, n), tail).status.Done?
  {
    if n == 0 {
      tail := CRLF + [];
      DrainEnd([]);
    } else {
      tail := Zeros(n) + CRLF + (LAST_CHUNK + []);
      DrainLast([]);
      DrainChunkBody(Zeros(n), LAST_CHUNK + []);
    }
  }

  lemma FinishSize(rest: Bytes, size: nat) returns (tail: Bytes)
    requires ParseSize(rest, 0, 0).Partial?
    ensures Drain(Chunked(Size, size), rest + tail).status.Done?
  {
    var line := FinishLine(rest, 0, 0);
    var n := ParseSize(rest + line, 0, 0).size;
    var more := FinishBody(n);
    tail := line + more;
    Assoc(rest, line, more);
    ParseSizeStable(rest + line, more, 0, 0);
    LineThenBody(rest + line, more, n, size);
  }

  lemma LineThenBody(line: Bytes, more: Bytes, n: nat, size: nat)
    requires ParseSize(line + more, 0, 0) == Complete(|line|, n)
    requires ValidKind(Chunked(if n > 0 then Body else EndCr, n))
    requires Drain(Chunked(if n > 0 then Body else EndCr, n), more).status.Done?
    ensures Drain(Chunked(Size, size), line + more).status.Done?
  {
    assert (line + more)[|line|..] == more;
    DrainStep(Size, size, line + more);
  }

  lemma FinishEol(state: ChunkedState, size: nat) returns (tail: Bytes)
    requires state == BodyCr || state == BodyLf || state == EndCr || state == EndLf
    ensures Drain(Chunked(state, size), tail).status.Done?
  {
    match state
    case BodyCr =>
      tail := [CR] + ([LF] + LAST_CHUNK);
      DrainStep(BodyCr, size, tail);
      assert tail[1..] == [LF] + LAST_CHUNK;
      LineThenLast(size);
    case BodyLf =>
      tail := [LF] + LAST_CHUNK;
      LineThenLast(size);
    case EndCr =>
      tail := [CR] + [LF];
      DrainStep(EndCr, size, tail);
      assert tail[1..] == [LF];
    case EndLf => tail := [LF];
  }

  lemma LineThenLast(size: nat)
    ensures Drain(Chunked(BodyLf, size), [LF] + LAST_CHUNK).status.Done?
  {
    DrainStep(BodyLf, size, [LF] + LAST_CHUNK);
    assert ([LF] + LAST_CHUNK)[1..] == LAST_CHUNK;
    SizeLineRoundTrip(0, CRLF);
    assert LAST_CHUNK == Hex(0) + CRLF + CRLF && LAST_CHUNK[3..] == CRLF + [];
    DrainStep(Size, size, LAST_CHUNK);
    DrainEnd([]);
  }

  lemma FinishStuck(kind: Kind, rest: Bytes) returns (tail: Bytes)
    requires Stuck(kind, rest)
    ensures Drain(kind, rest + tail).status.Done?
  {
    if kind.state.Size? {
      tail := FinishSize(rest, kind.size);
    } else {
      if kind.state.Body? {
        tail := FinishBody(kind.size);
      } else {
        tail := FinishEol(kind.state, kind.size);
      }
      assert rest + tail == tail;
    }
  }

  /** The input begins with a legal body. */
  ghost predicate HasBody(input: Bytes) {
    exists b: ChunkedBody, rest: Bytes :: LegalBody(b) && input == BodyBytes(b) + rest
  }

  lemma DoneIffLegal(input: Bytes)
    ensures Drain(Chunked(Size, 0), input).status.Done? <==> HasBody(input)
  {
    if Drain(Chunked(Size, 0), input).status.Done? {
      var b := AcceptedIsLegal(input, Drain(Chunked(Size, 0), input));
    }
    if HasBody(input) {
      var b: ChunkedBody, rest: Bytes :| LegalBody(b) && input == BodyBytes(b) + rest;
      LegalIsAccepted(b, rest);
    }
  }

  lemma WaitingCanEnd(input: Bytes) returns (more: Bytes)
    requires Drain(Chunked(Size, 0), input).status.More?
    ensures Drain(Chunked(Size, 0), input + more).status.Done?
  {
    var d := Drain(Chunked(Size, 0), input);
    DrainStuck(Chunked(Size, 0), input);
    more := FinishStuck(d.kind, d.rest);
    DrainSplit(Chunked(Size, 0), input, more);
  }

  lemma BrokenIsFinal(input: Bytes, more: Bytes)
    requires Drain(Chunked(Size, 0), input).status.Broken?
    ensures !Drain(Chunked(Size, 0), input + more).status.Done?
  {
    DrainSplit(Chunked(Size, 0), input, more);
  }

  /**
    The chunked decoder, on any input whatever: it comes to an end exactly if the input begins with a legal body, and
    it reports an error exactly if no bytes that might still arrive can make it begin with one.
  */
  lemma ChunkedExact(input: Bytes)
    ensures var d := Drain(Chunked(Size, 0), input);
      && (d.status.Done? <==> HasBody(input))
      && (d.status.Broken? <==> forall more: Bytes :: !HasBody(input + more))
  {
    DoneIffLegal(input);
    var d := Drain(Chunked(Size, 0), input);
    if d.status.Broken? {
      forall more: Bytes ensures !HasBody(input + more) {
        BrokenIsFinal(input, more);
        DoneIffLegal(input + more);
      }
    } else {
      var more := [];
      assert input + [] == input;
      if d.status.More? {
        more := WaitingCanEnd(input);
      }
      DoneIffLegal(input + more);
      assert HasBody(input + more);
    }
  }

  /** A body of known length, on any input: its first bytes, and the end exactly if they are all there. */
  lemma LengthExact(n: nat, input: Bytes)
    ensures Drain(Length(n), input) ==
      if n <= |input| then Drained(input[..n], Length(0), input[n..], Done)
      else Drained(input, Length(n - |input|), [], More)
  {
    if n <= |input| {
      assert input == input[..n] + input[n..];
      DrainLength(n, input[..n], input[n..]);
    } else {
      LengthWaits(n, input);
    }
  }

  lemma LengthWaits(n: nat, input: Bytes)
    requires n > |input|
    ensures Drain(Length(n), input) == Drained(input, Length(n - |input|), [], More)
  {
    assert Drain(Length(n - |input|), []) == Drained([], Length(n - |input|), [], More);
    assert input + [] == input;
  }

  /** A body that runs to the end of the connection takes all there is and never ends by itself. */
  lemma CloseExact(input: Bytes)
    ensures Drain(UntilClose, input) == Drained(input, UntilClose, [], More)
  {
    assert Drain(UntilClose, []) == Drained([], UntilClose, [], More);
    assert input + [] == input;
  }
}
