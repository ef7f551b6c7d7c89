/** Responses whose body ends with the connection, heads without a body, and streams to old clients. */
module ResponseToClose {
  import opened Basics
  import opened Payload
  import opened Transfer
  import opened Decimal
  import opened Framing
  import opened Response
  import opened ResponseLines
  import opened ChunkedGrammar

  /** Without a known length the encoder writes what it is given. */
  lemma {:induction false} ClosingParts(msgs: seq<Bytes>)
    ensures EncodeParts(CloseOut, msgs) == (CloseOut, Flatten(msgs))
    decreases |msgs|
  {
    if msgs != [] {
      ClosingParts(msgs[1..]);
    }
  }

  lemma ClosingWrites(msgs: seq<Bytes>)
    ensures EncodeBody(CloseOut, msgs) == (Flatten(msgs), true)
  {
    ClosingParts(msgs);
    assert Flatten(msgs) + [] == Flatten(msgs);
  }

  /** The answer to a `HEAD` request has no body, whatever is written. */
  lemma HeadHasNoBody(msg: Message, size: BodySize, stream: bool, msgs: seq<Bytes>)
    ensures EncodeBody(EncoderFor(true, stream, msg, size), msgs) == ([], true)
  {
    LengthRoundTrip(0, msgs, []);
  }

  /** A connection that switches protocols is handed over in full, unless the head announces a body. */
  lemma SwitchedIsHandedOver(version: Version, length: PayloadLength, input: Bytes)
    requires !length.ChunkedBody? && (length.LengthBody? ==> length.len == 0)
    ensures ReadAll(ReaderFor(101, version, length), input) == (input, [], false)
  {
    CloseExact(input);
  }

  // ---------------------------------------------------------------- streams

  lemma {:induction false} NoFramingLines(version: Version, hs: seq<Header>)
    requires LinesIn(hs, IsFraming) == []
    ensures var st := FoldHeaders(Fresh(version), hs);
      st.Some? && st.value.contentLength.None? && !st.value.chunked && st.value.version == version
  {
    if hs != [] {
      var before, h := hs[..|hs| - 1], hs[|hs| - 1];
      assert LinesIn(hs, IsFraming) == LinesIn(before, IsFraming) + if IsFraming(h.name) then [h] else [];
      NoFramingLines(version, before);
    }
  }

  lemma {:induction false} FoldVersion(version: Version, hs: seq<Header>)
    ensures var st := FoldHeaders(Fresh(version), hs); st.Some? ==> st.value.version == version
  {
    if hs != [] {
      FoldVersion(version, hs[..|hs| - 1]);
    }
  }

  /** A reader of HTTP/1.0 refuses a head that has a transfer encoding. */
  lemma {:induction false} OldReaderRefuses(hs: seq<Header>)
    requires exists i :: 0 <= i < |hs| && hs[i].name == TransferEncoding
    ensures FoldHeaders(Fresh(Http10), hs).None?
  {
    var before, h := hs[..|hs| - 1], hs[|hs| - 1];
    var i :| 0 <= i < |hs| && hs[i].name == TransferEncoding;
    FoldVersion(Http10, before);
    if i < |hs| - 1 {
      assert before[i].name == TransferEncoding;
      OldReaderRefuses(before);
    }
  }

  /** The reader a response head selects, if it is accepted. */
  function ReaderIn(msg: Message, version: Version, size: BodySize, ctype: ConnectionType, date: Bytes): Option<Reader>
  {
    ReaderBy(msg.status, version, HeadLines(msg, version, size, ctype, date))
  }

  function ReaderBy(status: nat, version: Version, lines: seq<Header>): Option<Reader> {
    var framing := FramingOf(version, lines);
    if framing.None? then None else Some(ReaderFor(status, version, framing.value))
  }

  /** The body of a stream, as the encoder takes it. */
  function StreamBody(msg: Message, msgs: seq<Bytes>): Bytes {
    if msg.chunked then BodyOf(msgs) else Flatten(msgs)
  }

  ghost predicate IsStream(msg: Message) {
    msg.status != 101 && !Bodiless(msg.status) && (!msg.chunked ==> Given(msg, IsFraming) == [])
  }

  lemma UnchunkedReader(msg: Message, version: Version, ctype: ConnectionType, date: Bytes)
    requires IsStream(msg) && !msg.chunked
    ensures ReaderIn(msg, version, StreamSize, ctype, date) ==
      Some(if version.Http10? then Reads(UntilClose) else NoPayload)
  {
    HeadersArrive(msg, version, StreamSize, ctype, date);
    assert OwnFraming(msg, StreamSize) + Given(msg, IsFraming) == [];
    UnframedReader(msg.status, version, HeadLines(msg, version, StreamSize, ctype, date));
  }

  lemma UnframedReader(status: nat, version: Version, lines: seq<Header>)
    requires LinesIn(lines, IsFraming) == [] && status != 101
    ensures ReaderBy(status, version, lines) == Some(if version.Http10? then Reads(UntilClose) else NoPayload)
  {
    NoFramingLines(version, lines);
  }

  lemma ChunkedToOld(msg: Message, ctype: ConnectionType, date: Bytes)
    requires IsStream(msg) && msg.chunked
    ensures ReaderIn(msg, Http10, StreamSize, ctype, date).None?
  {
    var lines := HeadLines(msg, Http10, StreamSize, ctype, date);
    assert FramingLine(msg, StreamSize) == [Header(TransferEncoding, S_CHUNKED)];
    assert lines[0] == Header(TransferEncoding, S_CHUNKED);
    OldReaderRefuses(lines);
  }

  lemma ChunkedToNew(msg: Message, ctype: ConnectionType, date: Bytes)
    requires IsStream(msg) && msg.chunked
    ensures ReaderIn(msg, Http11, StreamSize, ctype, date) == Some(Reads(Chunked(Size, 0)))
  {
    HeadIsFramed(msg, StreamSize, ctype, date);
  }

  /** Head and body of a stream arrive: the head is accepted, and the reader it selects hands out the body. */
  predicate Survives(reader: Option<Reader>, wire: Bytes, body: Bytes)
    requires reader.Some? && !reader.value.NoPayload? ==> ValidKind(reader.value.kind)
  {
    reader.Some? && ReadAll(reader.value, wire).0 == body
  }

  /**
    A response that is a stream arrives if and only if it is chunked for an HTTP/1.1 client and not chunked for an
    HTTP/1.0 client: the encoder chunks by the message's flag alone, an HTTP/1.0 reader refuses the chunked head, and
    an HTTP/1.1 reader does not read on to the end of the connection.
  */
  lemma StreamSurvivesIff(msg: Message, version: Version, ctype: ConnectionType, date: Bytes, msgs: seq<Bytes>)
    requires IsStream(msg) && StreamBody(msg, msgs) != [] && forall m :: m in msgs ==> |m| < TWO_64
    ensures var reader := ReaderIn(msg, version, StreamSize, ctype, date);
      && (reader.Some? && !reader.value.NoPayload? ==> ValidKind(reader.value.kind))
      && (Survives(reader, EncodeBody(EncoderFor(false, false, msg, StreamSize), msgs).0, StreamBody(msg, msgs))
          <==> (msg.chunked <==> version.Http11?))
  {
    if !msg.chunked {
      UnchunkedReader(msg, version, ctype, date);
      ClosingWrites(msgs);
      CloseExact(Flatten(msgs));
    } else if version.Http10? {
      ChunkedToOld(msg, ctype, date);
    } else {
      ChunkedToNew(msg, ctype, date);
      ChunkedRoundTrip(msgs, []);
      var wire := EncodeBody(ChunkedOut(false), msgs).0;
      assert wire + [] == wire;
    }
  }
}
