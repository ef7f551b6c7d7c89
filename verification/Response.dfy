/**
  A response head is written by `encode_headers` and read back by the header fold: the framing both
  sides settle on, and what becomes of the body.
*/
module Response {
  import opened Basics
  import opened Payload
  import opened Transfer
  import opened Decimal
  import opened Framing
  import opened FramingOrder

  datatype BodySize = NoSize | EmptySize | Sized(len: nat) | StreamSize

  datatype ConnectionType = Close | KeepAlive | UpgradeType

  const S_CLOSE: Bytes := [99, 108, 111, 115, 101]
  const S_KEEP_ALIVE: Bytes := [107, 101, 101, 112, 45, 97, 108, 105, 118, 101]
  const S_UPGRADE: Bytes := [117, 112, 103, 114, 97, 100, 101]

  /** The parts of a message that `encode_headers` looks at; `extra` overrides names of `own`. */
  datatype Message = Message(status: nat, chunked: bool, own: seq<Header>, extra: seq<Header>)

  // ---------------------------------------------------------------- writing the head

  /** Statuses whose head never announces a body. */
  predicate Bodiless(status: nat) {
    status == 204 || status == 100 || status == 102
  }

  /** The size the head is written for. */
  function HeadSize(msg: Message, size: BodySize): BodySize {
    if Bodiless(msg.status) then NoSize else if msg.status == 101 then StreamSize else size
  }

  function FramingLine(msg: Message, size: BodySize): seq<Header> {
    match HeadSize(msg, size)
    case NoSize => []
    case EmptySize => [Header(ContentLength, [48])]
    case Sized(n) => [Header(ContentLength, Digits(n))]
    case StreamSize => if msg.chunked then [Header(TransferEncoding, S_CHUNKED)] else []
  }

  /** Whether the framing headers of the user are left out. */
  predicate SkipLen(msg: Message, size: BodySize) {
    if HeadSize(msg, size).StreamSize? then msg.chunked else !size.StreamSize?
  }

  function ConnectionLine(version: Version, ctype: ConnectionType): seq<Header> {
    match ctype
    case UpgradeType => [Header(Connection, S_UPGRADE)]
    case KeepAlive => if version.Http10? then [Header(Connection, S_KEEP_ALIVE)] else []
    case Close => if version.Http11? then [Header(Connection, S_CLOSE)] else []
  }

  predicate Overridden(h: Header, extra: seq<Header>) {
    exists i :: 0 <= i < |extra| && extra[i].name == h.name
  }

  function NotOverridden(own: seq<Header>, extra: seq<Header>): seq<Header> {
    if own == [] then []
    else NotOverridden(own[..|own| - 1], extra) + if Overridden(own[|own| - 1], extra) then [] else [own[|own| - 1]]
  }

  predicate Written(h: Header, skipLen: bool) {
    h.name != Connection && !(skipLen && (h.name == TransferEncoding || h.name == ContentLength))
  }

  function WrittenOf(hs: seq<Header>, skipLen: bool): seq<Header> {
    if hs == [] then []
    else WrittenOf(hs[..|hs| - 1], skipLen) + if Written(hs[|hs| - 1], skipLen) then [hs[|hs| - 1]] else []
  }

  predicate HasDate(hs: seq<Header>) {
    exists i :: 0 <= i < |hs| && hs[i].name == Date
  }

  function UserLines(msg: Message, size: BodySize): seq<Header> {
    WrittenOf(NotOverridden(msg.own, msg.extra) + msg.extra, SkipLen(msg, size))
  }

  /** The header lines of the head, in order. */
  function HeadLines(msg: Message, version: Version, size: BodySize, ctype: ConnectionType, date: Bytes): seq<Header> {
    var user := UserLines(msg, size);
    FramingLine(msg, size) + ConnectionLine(version, ctype) + user + if HasDate(user) then [] else [Header(Date, date)]
  }

  /** The loop of `encode_headers` over the user's headers. */
  method EncodeUser(headers: seq<Header>, skipLen: bool) returns (lines: seq<Header>, hasDate: bool)
    ensures lines == WrittenOf(headers, skipLen)
    ensures hasDate <==> HasDate(lines)
  {
    lines, hasDate := [], false;
    for i := 0 to |headers|
      invariant lines == WrittenOf(headers[..i], skipLen)
      invariant hasDate <==> HasDate(lines)
    {
      var h := headers[i];
      assert headers[..i + 1][..i] == headers[..i];
      if h.name == Connection || (skipLen && (h.name == TransferEncoding || h.name == ContentLength)) {
        continue;
      }
      if h.name == Date {
        hasDate := true;
      }
      DateLast(lines, h);
      lines := lines + [h];
    }
    assert headers[..|headers|] == headers;
  }

  lemma DateLast(hs: seq<Header>, h: Header)
    ensures HasDate(hs + [h]) <==> HasDate(hs) || h.name == Date
  {
    assert (hs + [h])[|hs|] == h;
    assert forall j :: 0 <= j < |hs| ==> (hs + [h])[j] == hs[j];
  }

  /** `encode_headers` */
  method EncodeHeaders(msg: Message, version: Version, size: BodySize, ctype: ConnectionType, date: Bytes)
    returns (dst: seq<Header>)
    ensures dst == HeadLines(msg, version, size, ctype, date)
  {
    var length, skipLen := size, size != StreamSize;
    if Bodiless(msg.status) {
      length := NoSize;
    } else if msg.status == 101 {
      skipLen, length := true, StreamSize;
    }
    dst := [];
    match length {
      case NoSize =>
      case EmptySize => dst := [Header(ContentLength, [48])];
      case Sized(n) => dst := [Header(ContentLength, Digits(n))];
      case StreamSize =>
        skipLen := msg.chunked;
        if msg.chunked {
          dst := [Header(TransferEncoding, S_CHUNKED)];
        }
    }
    assert dst == FramingLine(msg, size) && skipLen == SkipLen(msg, size);
    match ctype {
      case UpgradeType => dst := dst + [Header(Connection, S_UPGRADE)];
      case KeepAlive => if version == Http10 { dst := dst + [Header(Connection, S_KEEP_ALIVE)]; }
      case Close => if version == Http11 { dst := dst + [Header(Connection, S_CLOSE)]; }
    }
    assert dst == FramingLine(msg, size) + ConnectionLine(version, ctype);
    var user, hasDate := EncodeUser(NotOverridden(msg.own, msg.extra) + msg.extra, skipLen);
    dst := dst + user;
    if !hasDate {
      dst := dst + [Header(Date, date)];
    }
  }

  // ---------------------------------------------------------------- encoder and reader of the body

  /** The transfer encoder `MessageEncoder::encode` sets. */
  function EncoderFor(isHead: bool, stream: bool, msg: Message, size: BodySize): Encoding {
    if isHead then LengthOut(0)
    else
      match size
      case NoSize => LengthOut(0)
      case EmptySize => LengthOut(0)
      case Sized(n) => LengthOut(n)
      case StreamSize => if msg.chunked && !stream then ChunkedOut(false) else CloseOut
  }

  datatype Reader = NoPayload | Reads(kind: Kind) | Streams(kind: Kind)

  /** `set_payload_length` of a response head */
  function ReaderFor(status: nat, version: Version, length: PayloadLength): Reader {
    if length == ChunkedBody then Reads(Chunked(Size, 0))
    else if length.LengthBody? && length.len > 0 then Reads(Length(length.len))
    else if status == 101 then Streams(UntilClose)
    else if version.Http10? then Reads(UntilClose)
    else NoPayload
  }

  /** What a reader takes from the connection: the payload, what is left, and whether it saw the end. */
  function ReadAll(r: Reader, input: Bytes): (Bytes, Bytes, bool)
    requires r.Reads? || r.Streams? ==> ValidKind(r.kind)
  {
    if r.NoPayload? then ([], input, true)
    else
      var d := Drain(r.kind, input);
      (d.out, d.rest, d.status.Done?)
  }

  // ---------------------------------------------------------------- what the reader makes of the head

  /** Sorts of the lines behind the framing line: nothing that sets a framing. */
  predicate Trailing(ss: seq<Sort>) {
    forall i :: 0 <= i < |ss| ==> ss[i] == Websocket || ss[i] == PlainUpgrade || ss[i] == Neutral
  }

  lemma {:induction false} TrailingFold(version: Version, r: Rec, ss: seq<Sort>)
    requires Trailing(ss)
    ensures var r' := FoldSorts(version, r, ss);
      && r'.Some? && r'.value.chunked == r.chunked
      && r'.value.len == if Websocket in ss then None else r.len
  {
    if ss != [] {
      TrailingFold(version, r, ss[..|ss| - 1]);
      assert ss == ss[..|ss| - 1] + [ss[|ss| - 1]];
    }
  }

  predicate FramingName(h: Header) {
    h.name == ContentLength || h.name == TransferEncoding
  }

  predicate NoFraming(hs: seq<Header>) {
    forall i :: 0 <= i < |hs| ==> !FramingName(hs[i])
  }

  lemma NoFramingTrails(hs: seq<Header>)
    requires NoFraming(hs)
    ensures Trailing(Sorts(hs))
  {}

  predicate HasWebsocket(hs: seq<Header>) {
    exists i :: 0 <= i < |hs| && SortOf(hs[i]) == Websocket
  }

  lemma WebsocketLast(hs: seq<Header>, h: Header)
    ensures HasWebsocket(hs + [h]) <==> HasWebsocket(hs) || SortOf(h) == Websocket
  {
    assert (hs + [h])[|hs|] == h;
    assert forall j :: 0 <= j < |hs| ==> (hs + [h])[j] == hs[j];
  }

  /** Skipping framing headers loses no upgrade. */
  lemma {:induction false} WrittenKeeps(hs: seq<Header>)
    ensures NoFraming(WrittenOf(hs, true))
    ensures HasWebsocket(WrittenOf(hs, true)) <==> HasWebsocket(hs)
  {
    if hs != [] {
      var before, h := hs[..|hs| - 1], hs[|hs| - 1];
      WrittenKeeps(before);
      assert hs == before + [h];
      WebsocketLast(before, h);
      if Written(h, true) {
        assert WrittenOf(hs, true) == WrittenOf(before, true) + [h];
        WebsocketLast(WrittenOf(before, true), h);
      } else {
        assert WrittenOf(hs, true) == WrittenOf(before, true);
        assert SortOf(h) != Websocket;
      }
    }
  }

  lemma NoBlanks(v: Bytes)
    requires v != [] && !IsBlank(v[0]) && !IsBlank(v[|v| - 1])
    ensures TrimStart(v) == v && TrimEnd(v) == v
  {}

  lemma ChunkedSort()
    ensures SortOf(Header(TransferEncoding, S_CHUNKED)) == ChunkedTe
  {
    NoBlanks(S_CHUNKED);
  }

  lemma LengthSort(n: nat)
    requires n < TWO_64
    ensures SortOf(Header(ContentLength, Digits(n))) == GoodLength(n)
  {
    DigitsRoundTrip(n);
    NoBlanks(Digits(n));
  }

  // ---------------------------------------------------------------- end to end

  /** The headers of the user that are candidates for the head. */
  function UserHeaders(msg: Message): seq<Header> {
    NotOverridden(msg.own, msg.extra) + msg.extra
  }

  function RestLines(msg: Message, version: Version, size: BodySize, ctype: ConnectionType, date: Bytes): seq<Header> {
    var user := UserLines(msg, size);
    ConnectionLine(version, ctype) + user + if HasDate(user) then [] else [Header(Date, date)]
  }

  lemma WebsocketIn(hs: seq<Header>)
    ensures Websocket in Sorts(hs) <==> HasWebsocket(hs)
  {
    if HasWebsocket(hs) {
      var i :| 0 <= i < |hs| && SortOf(hs[i]) == Websocket;
      assert Sorts(hs)[i] == Websocket;
    }
  }

  lemma WebsocketAppend(a: seq<Header>, b: seq<Header>)
    ensures HasWebsocket(a + b) <==> HasWebsocket(a) || HasWebsocket(b)
  {
    WebsocketIn(a);
    WebsocketIn(b);
    WebsocketIn(a + b);
    MapAppend(SortOf, a, b);
  }

  /** When the user's framing headers are skipped, only the first line speaks of framing. */
  lemma RestTrails(msg: Message, size: BodySize, ctype: ConnectionType, date: Bytes)
    requires SkipLen(msg, size)
    ensures var rest := RestLines(msg, Http11, size, ctype, date);
      NoFraming(rest) && (HasWebsocket(rest) <==> HasWebsocket(UserHeaders(msg)))
  {
    var user := UserLines(msg, size);
    WrittenKeeps(UserHeaders(msg));
    var dated := if HasDate(user) then [] else [Header(Date, date)];
    WebsocketAppend(ConnectionLine(Http11, ctype), user);
    WebsocketAppend(ConnectionLine(Http11, ctype) + user, dated);
  }

  /** What can be framed: no upgrade, and a stream only where it can be chunked. */
  predicate Framed(msg: Message, size: BodySize) {
    && msg.status != 101
    && (size.Sized? ==> size.len < TWO_64)
    && (size.StreamSize? ==> msg.chunked && !Bodiless(msg.status))
  }

  /** The head announces no body at all. */
  predicate Silent(msg: Message, size: BodySize) {
    Bodiless(msg.status) || size.NoSize?
  }

  /** The framing a reader finds in the head. */
  function HeadFraming(msg: Message, size: BodySize): PayloadLength {
    if size.StreamSize? then ChunkedBody
    else if !Silent(msg, size) && !HasWebsocket(UserHeaders(msg)) then LengthBody(if size.Sized? then size.len else 0)
    else NoBody
  }

  /** An upgrade that was cleared of its length reads like no body when the status does not switch protocols. */
  predicate SameFraming(a: PayloadLength, b: PayloadLength) {
    a == b || (a.UpgradeBody? && b.NoBody?)
  }

  lemma FirstLine(msg: Message, size: BodySize) returns (first: Sort)
    requires Framed(msg, size) && !Silent(msg, size)
    ensures Sorts(FramingLine(msg, size)) == [first]
    ensures first == if size.StreamSize? then ChunkedTe else GoodLength(if size.Sized? then size.len else 0)
    ensures |FramingLine(msg, size)| == 1 && FramingName(FramingLine(msg, size)[0])
  {
    ChunkedSort();
    LengthSort(if size.Sized? then size.len else 0);
    first := SortOf(FramingLine(msg, size)[0]);
  }

  /** A framing line followed by lines that set no framing. */
  lemma FramedFold(first: seq<Sort>, rest: seq<Sort>)
    requires first == [] || first == [ChunkedTe] || (|first| == 1 && first[0].GoodLength?)
    requires Trailing(rest)
    ensures var r := FoldSorts(Http11, BLANK, first + rest);
      && r.Some?
      && (r.value.chunked <==> first == [ChunkedTe])
      && r.value.len == if first == [] || first == [ChunkedTe] || Websocket in rest then None else Some(first[0].len)
  {
    FoldAppend(Http11, BLANK, first, rest);
    if first == [] {
      TrailingFold(Http11, BLANK, rest);
    } else {
      FoldOne(Http11, BLANK, first[0]);
      TrailingFold(Http11, SetSort(Http11, BLANK, first[0]).value, rest);
    }
  }

  lemma LinesSplit(msg: Message, size: BodySize, ctype: ConnectionType, date: Bytes)
    requires Framed(msg, size)
    ensures var rest := RestLines(msg, Http11, size, ctype, date);
      && HeadLines(msg, Http11, size, ctype, date) == FramingLine(msg, size) + rest
      && NoFraming(rest) && Trailing(Sorts(rest))
      && (Websocket in Sorts(rest) <==> HasWebsocket(UserHeaders(msg)))
      && Sorts(FramingLine(msg, size) + rest) == Sorts(FramingLine(msg, size)) + Sorts(rest)
  {
    var rest := RestLines(msg, Http11, size, ctype, date);
    RestTrails(msg, size, ctype, date);
    NoFramingTrails(rest);
    WebsocketIn(rest);
    MapAppend(SortOf, FramingLine(msg, size), rest);
    LinesAre(msg, size, ctype, date);
  }

  lemma LinesAre(msg: Message, size: BodySize, ctype: ConnectionType, date: Bytes)
    ensures HeadLines(msg, Http11, size, ctype, date) ==
        FramingLine(msg, size) + RestLines(msg, Http11, size, ctype, date)
  {
    var user := UserLines(msg, size);
    var dated := if HasDate(user) then [] else [Header(Date, date)];
    Assoc4(FramingLine(msg, size), ConnectionLine(Http11, ctype), user, dated);
  }

  lemma Assoc4<T>(a: seq<T>, b: seq<T>, c: seq<T>, d: seq<T>)
    ensures a + b + c + d == a + (b + c + d)
  {}

  lemma FirstSorts(msg: Message, size: BodySize) returns (first: seq<Sort>)
    requires Framed(msg, size)
    ensures first == Sorts(FramingLine(msg, size))
    ensures Silent(msg, size) ==> FramingLine(msg, size) == []
    ensures !Silent(msg, size) ==> |FramingLine(msg, size)| == 1 && FramingName(FramingLine(msg, size)[0])
    ensures first == if Silent(msg, size) then [] else if size.StreamSize? then [ChunkedTe]
                     else [GoodLength(if size.Sized? then size.len else 0)]
  {
    first := [];
    if !Silent(msg, size) {
      var f := FirstLine(msg, size);
      first := [f];
    }
  }

  /**
    Whatever the user's headers are, the head of a response with a body has exactly one framing header, its first
    line, and the reader of the head finds that framing - unless a websocket upgrade among the headers clears it.
  */
  lemma HeadIsFramed(msg: Message, size: BodySize, ctype: ConnectionType, date: Bytes)
    requires Framed(msg, size)
    ensures var lines := HeadLines(msg, Http11, size, ctype, date);
      && (Silent(msg, size) ==> NoFraming(lines))
      && (!Silent(msg, size) ==> |lines| > 0 && FramingName(lines[0]) && NoFraming(lines[1..]))
      && FramingOf(Http11, lines).Some?
      && SameFraming(FramingOf(Http11, lines).value, HeadFraming(msg, size))
  {
    var lines := HeadLines(msg, Http11, size, ctype, date);
    var rest := RestLines(msg, Http11, size, ctype, date);
    LinesSplit(msg, size, ctype, date);
    var first := FirstSorts(msg, size);
    FramedFold(first, Sorts(rest));
    FramingBySorts(Http11, lines);
    if Silent(msg, size) {
      assert lines == rest;
    } else {
      assert lines[1..] == rest;
    }
  }

  /** The bytes of the body the encoder accepts from `msgs`. */
  function AcceptedBody(size: BodySize, msgs: seq<Bytes>): Bytes {
    match size
    case StreamSize => BodyOf(msgs)
    case Sized(n) => if n <= |Flatten(msgs)| then Flatten(msgs)[..n] else Flatten(msgs)
    case _ => []
  }

  function ReaderOf(msg: Message, size: BodySize, ctype: ConnectionType, date: Bytes): Reader {
    var framing := FramingOf(Http11, HeadLines(msg, Http11, size, ctype, date));
    ReaderFor(msg.status, Http11, if framing.Some? then framing.value else NoBody)
  }

  /** A caller can tell beforehand that writer and reader agree. */
  predicate Agree(msg: Message, size: BodySize) {
    size.Sized? && size.len > 0 ==> !Bodiless(msg.status) && !HasWebsocket(UserHeaders(msg))
  }

  /**
    Head and body of an HTTP/1.1 response through writer and reader, for any headers and any way the body is
    handed over: the reader takes exactly the body off the connection if and only if `Agree` holds.
  */
  lemma ResponseRoundTrip(msg: Message, size: BodySize, ctype: ConnectionType, date: Bytes, msgs: seq<Bytes>,
        trailing: Bytes)
    requires Framed(msg, size) && forall m :: m in msgs ==> |m| < TWO_64
    ensures var (wire, ok) := EncodeBody(EncoderFor(false, false, msg, size), msgs);
      && (ok <==> (size.Sized? ==> |Flatten(msgs)| >= size.len))
      && (ok ==>
            (ReadAll(ReaderOf(msg, size, ctype, date), wire + trailing) == (AcceptedBody(size, msgs), trailing, true)
             <==> Agree(msg, size)))
  {
    var reader := ReadsLike(msg, size, ctype, date);
    if size.StreamSize? {
      ChunkedRoundTrip(msgs, trailing);
    } else {
      SizedRoundTrip(if size.Sized? then size.len else 0, msgs, trailing);
    }
  }

  lemma ReadsLike(msg: Message, size: BodySize, ctype: ConnectionType, date: Bytes) returns (reader: Reader)
    requires Framed(msg, size)
    ensures reader == ReaderOf(msg, size, ctype, date)
    ensures reader == if size.StreamSize? then Reads(Chunked(Size, 0))
                      else if size.Sized? && size.len > 0 && Agree(msg, size) then Reads(Length(size.len))
                          else NoPayload
  {
    HeadIsFramed(msg, size, ctype, date);
    reader := ReaderOf(msg, size, ctype, date);
  }

  lemma SizedRoundTrip(n: nat, msgs: seq<Bytes>, trailing: Bytes)
    ensures var (wire, ok) := EncodeBody(LengthOut(n), msgs);
      && (ok <==> |Flatten(msgs)| >= n)
      && (ok && n > 0 ==> ReadAll(Reads(Length(n)), wire + trailing) == (Flatten(msgs)[..n], trailing, true))
      && (ok ==> (ReadAll(NoPayload, wire + trailing) == (Flatten(msgs)[..n], trailing, true) <==> n == 0))
  {
    LengthRoundTrip(n, msgs, trailing);
    var (wire, ok) := EncodeBody(LengthOut(n), msgs);
    if n == 0 {
      assert wire + trailing == trailing;
    }
  }

  // ---------------------------------------------------------------- where the framing goes wrong

  const FIVE := Header(ContentLength, [53])
  const TO_WEBSOCKET := Header(Upgrade, S_WEBSOCKET)

  lemma WebsocketSort()
    ensures SortOf(TO_WEBSOCKET) == Websocket && SortOf(FIVE) == GoodLength(5)
  {
    NoBlanks(S_WEBSOCKET);
    LengthSort(5);
    assert Digits(5) == [53];
  }

  /** A length of five is kept behind the upgrade, and lost in front of it. */
  lemma OrderMatters()
    ensures FramingOf(Http11, [TO_WEBSOCKET, FIVE]) == Some(LengthBody(5))
    ensures FramingOf(Http11, [FIVE, TO_WEBSOCKET]) == Some(UpgradeBody)
  {
    WebsocketSort();
    var (a, b) := (GoodLength(5), Websocket);
    FramingBySorts(Http11, [TO_WEBSOCKET, FIVE]);
    FramingBySorts(Http11, [FIVE, TO_WEBSOCKET]);
    FoldAppend(Http11, BLANK, [b], [a]);
    FoldAppend(Http11, BLANK, [a], [b]);
    FoldOne(Http11, BLANK, a);
    FoldOne(Http11, BLANK, b);
    FoldOne(Http11, SetSort(Http11, BLANK, a).value, b);
    FoldOne(Http11, SetSort(Http11, BLANK, b).value, a);
    assert Sorts([TO_WEBSOCKET, FIVE]) == [b] + [a] && Sorts([FIVE, TO_WEBSOCKET]) == [a] + [b];
  }

  const UPGRADING := Message(200, false, [], [TO_WEBSOCKET])

  lemma UpgradingHasWebsocket()
    ensures HasWebsocket(UserHeaders(UPGRADING))
  {
    WebsocketSort();
    assert NotOverridden([], [TO_WEBSOCKET]) + [TO_WEBSOCKET] == [TO_WEBSOCKET];
    assert UserHeaders(UPGRADING)[0] == TO_WEBSOCKET;
  }

  lemma UpgradingReader(date: Bytes)
    ensures ReaderOf(UPGRADING, Sized(1), KeepAlive, date) == NoPayload
  {
    UpgradingHasWebsocket();
    var reader := ReadsLike(UPGRADING, Sized(1), KeepAlive, date);
  }

  /** A one-byte response whose own headers offer a websocket upgrade: the byte is written and not read. */
  lemma UpgradeLosesBody(date: Bytes)
    ensures EncodeBody(EncoderFor(false, false, UPGRADING, Sized(1)), [[7]]) == ([7], true)
    ensures ReadAll(ReaderOf(UPGRADING, Sized(1), KeepAlive, date), [7]) == ([], [7], true)
  {
    UpgradingReader(date);
    OneByte();
  }

  lemma OneByte()
    ensures EncodeBody(LengthOut(1), [[7]]) == ([7], true)
  {
    LengthRoundTrip(1, [[7]], []);
    assert Flatten([[7]]) == [7] + Flatten([]);
  }
}
