/** The WebSocket codec (`ws/codec.rs`): messages to frames and back, with fragmented messages. */
module WsCodec {
  import opened Basics
  import opened Mask
  import opened Streaming
  import opened WsFrame

  type u16 = x: int | 0 <= x < 65536

  datatype CloseCode = Normal | Away | Protocol | Unsupported | Abnormal | InvalidCode | Policy | SizeCode | Extension
                     | ErrorCode | Restart | Again | Tls | OtherCode(code: u16)

  function CodeNumber(code: CloseCode): u16 {
    match code
    case Normal => 1000
    case Away => 1001
    case Protocol => 1002
    case Unsupported => 1003
    case Abnormal => 1006
    case InvalidCode => 1007
    case Policy => 1008
    case SizeCode => 1009
    case Extension => 1010
    case ErrorCode => 1011
    case Restart => 1012
    case Again => 1013
    case Tls => 1015
    case OtherCode(n) => n
  }

  function CodeOf(n: u16): CloseCode {
    if n == 1000 then Normal else if n == 1001 then Away else if n == 1002 then Protocol
    else if n == 1003 then Unsupported else if n == 1006 then Abnormal else if n == 1007 then InvalidCode
    else if n == 1008 then Policy else if n == 1009 then SizeCode else if n == 1010 then Extension
    else if n == 1011 then ErrorCode else if n == 1012 then Restart else if n == 1013 then Again
    else if n == 1015 then Tls else OtherCode(n)
  }

  datatype Reason = Reason(code: CloseCode, description: Option<Data>)

  datatype Item = FirstText(data: Data) | FirstBinary(data: Data) | Continue(data: Data) | Last(data: Data)

  /** Messages and frames have the same shape; texts are their bytes. */
  datatype Message = Text(data: Data) | Binary(data: Data) | Continuation(item: Item) | Ping(data: Data)
                   | Pong(data: Data)
                   | Close(reason: Option<Reason>)

  datatype Codec = Codec(server: bool, max: nat, reading: bool, writing: bool, closed: bool)

  // ---------------------------------------------------------------- encoding

  /** The payload `write_close` writes. */
  function ClosePayload(reason: Option<Reason>): Data {
    if reason.None? then []
    else BigEndian(CodeNumber(reason.value.code), 2)
         + if reason.value.description.Some? then reason.value.description.value else []
  }

  datatype Sent = Sent(op: OpCode, fin: bool, payload: Data)

  function FrameOf(m: Message): Sent {
    match m
    case Text(d) => Sent(TextOp, true, d)
    case Binary(d) => Sent(BinaryOp, true, d)
    case Ping(d) => Sent(PingOp, true, d)
    case Pong(d) => Sent(PongOp, true, d)
    case Close(reason) => Sent(CloseOp, true, ClosePayload(reason))
    case Continuation(FirstText(d)) => Sent(TextOp, false, d)
    case Continuation(FirstBinary(d)) => Sent(BinaryOp, false, d)
    case Continuation(Continue(d)) => Sent(ContinueOp, false, d)
    case Continuation(Last(d)) => Sent(ContinueOp, true, d)
  }

  predicate Starts(m: Message) {
    m.Continuation? && (m.item.FirstText? || m.item.FirstBinary?)
  }

  predicate Accepts(c: Codec, m: Message) {
    m.Continuation? ==> (c.writing <==> !Starts(m))
  }

  function Written(c: Codec, m: Message): Codec {
    if m.Close? then c.(closed := true)
    else if Starts(m) then c.(writing := true)
    else if m.Continuation? && m.item.Last? then c.(writing := false)
    else c
  }

  datatype Encoded = Refused(error: Error) | Wrote(codec: Codec, bytes: Data)

  /** `encodev`; `mask` is the random number drawn by a client. */
  function Encode(c: Codec, m: Message, mask: bv32): Encoded {
    if !Accepts(c, m) then Refused(if Starts(m) then ContinuationStarted else ContinuationNotStarted)
    else
      var f := FrameOf(m);
      Wrote(Written(c, m), WriteMessage(f.payload, f.op, f.fin, if c.server then None else Some(mask)))
  }

  // ---------------------------------------------------------------- decoding

  /** `parse_close_payload` */
  function ReadClose(payload: Data): Option<Reason> {
    if |payload| < 2 then None
    else
      CodeFits(payload[..2]);
      Some(Reason(CodeOf(FromBigEndian(payload[..2])), if |payload| > 2 then Some(payload[2..]) else None))
  }

  lemma CodeFits(s: Data)
    requires |s| == 2
    ensures FromBigEndian(s) < 65536
  {
    assert FromBigEndian(s) == FromBigEndian(s[..1]) * 256 + s[1] as nat;
    assert FromBigEndian(s[..1]) == FromBigEndian(s[..1][..0]) * 256 + s[0] as nat;
  }

  /** What the codec makes of a parsed frame. */
  function Handle(c: Codec, fin: bool, op: OpCode, payload: Option<Data>): (Outcome<Message, Error>, Codec) {
    var data := if payload.Some? then payload.value else [];
    match op
    case ContinueOp =>
      if !c.reading then (Failed(ContinuationNotStarted), c)
      else if fin then (Got(Continuation(Last(data))), c.(reading := false))
      else (Got(Continuation(Continue(data))), c)
    case TextOp =>
      if fin then (Got(Text(data)), c)
      else if c.reading then (Failed(ContinuationStarted), c)
      else (Got(Continuation(FirstText(data))), c.(reading := true))
    case BinaryOp =>
      if fin then (Got(Binary(data)), c)
      else if c.reading then (Failed(ContinuationStarted), c)
      else (Got(Continuation(FirstBinary(data))), c.(reading := true))
    case CloseOp =>
      if !fin then (Failed(ContinuationFragment), c)
      else (Got(Close(if payload.Some? then ReadClose(payload.value) else None)), c)
    case PingOp => (Got(Ping(data)), c)
    case PongOp => (Got(Pong(data)), c)
    case BadOp => (Failed(InvalidOpcode), c)
  }

  type Decoded = Called<Codec, Message, Error, Byte>

  function HandleParse(c: Codec, r: Parse, src: Data): Decoded {
    match r
    case ParsePartial => Called(Waiting, c, src)
    case ParseError(e, rest) => Called(Failed(e), c, rest)
    case Parsed(fin, op, payload, rest) => var (o, c1) := Handle(c, fin, op, payload); Called(o, c1, rest)
  }

  /** `decode` */
  function Decode(c: Codec, src: Data): Decoded {
    HandleParse(c, ParseFrame(src, c.server, c.max), src)
  }

  lemma DecodeStable(c: Codec, a: Data, b: Data)
    requires !Decode(c, a).outcome.Waiting?
    ensures var r := Decode(c, a); Decode(c, a + b) == r.(rest := r.rest + b)
  {
    ParseStable(a, b, c.server, c.max);
  }

  // ---------------------------------------------------------------- one message

  /** What arrives of a message: an empty description and the name of a close code are not told apart. */
  function Arrives(m: Message): Message {
    if m.Close? && m.reason.Some? then
      var r := m.reason.value;
      Close(Some(Reason(CodeOf(CodeNumber(r.code)), if r.description == Some([]) then None else r.description)))
    else m
  }

  predicate KnownNumber(n: u16) {
    !CodeOf(n).OtherCode?
  }

  predicate Ambiguous(r: Reason) {
    r.description == Some([]) || (r.code.OtherCode? && KnownNumber(r.code.code))
  }

  /** Exactly these messages arrive changed. */
  lemma ArrivesChanged(m: Message)
    ensures Arrives(m) != m <==> m.Close? && m.reason.Some? && Ambiguous(m.reason.value)
  {}

  predicate Fits(m: Message, max: nat) {
    && |FrameOf(m).payload| <= max < WsFrame.TWO_64
    && (m.Ping? || m.Pong? || m.Close? ==> |FrameOf(m).payload| <= 125)
  }

  lemma CloseReads(reason: Option<Reason>)
    ensures var p := ClosePayload(reason);
      Close(if p == [] then None else ReadClose(p)) == Arrives(Close(reason))
  {
    if reason.Some? {
      var n := CodeNumber(reason.value.code);
      var p := ClosePayload(reason);
      var d := if reason.value.description.Some? then reason.value.description.value else [];
      assert p[..2] == BigEndian(n, 2) && p[2..] == d;
      assert Pow256(2) == 65536;
      BigEndianReads(n, 2);
    }
  }

  lemma HandleReads(w: Codec, r: Codec, m: Message)
    requires Accepts(w, m) && r.reading == w.writing
    ensures var f := FrameOf(m);
      Handle(r, f.fin, f.op, if f.payload == [] then None else Some(f.payload)) ==
      (Got(Arrives(m)), r.(reading := Written(w, m).writing))
  {
    if m.Close? {
      CloseReads(m.reason);
    }
  }

  lemma FrameReads(w: Codec, r: Codec, m: Message, mask: bv32, rest: Data)
    requires Accepts(w, m) && r.server != w.server && Fits(m, r.max)
    ensures var f := FrameOf(m);
      ParseFrame(Encode(w, m, mask).bytes + rest, r.server, r.max) ==
      Parsed(f.fin, f.op, if f.payload == [] then None else Some(f.payload), rest)
  {
    var f := FrameOf(m);
    FrameRoundTrip(f.payload, f.op, f.fin, if w.server then None else Some(mask), r.max, rest);
  }

  /** A message through writer and reader of opposite roles; the flags of both stay together. */
  lemma MessageRoundTrip(w: Codec, r: Codec, m: Message, mask: bv32, rest: Data)
    requires Accepts(w, m) && r.server != w.server && r.reading == w.writing && Fits(m, r.max)
    ensures var e := Encode(w, m, mask);
      Decode(r, e.bytes + rest) == Called(Got(Arrives(m)), r.(reading := e.codec.writing), rest)
  {
    FrameReads(w, r, m, mask, rest);
    HandleReads(w, r, m);
    var f := FrameOf(m);
    HandleOnce(r, Parsed(f.fin, f.op, if f.payload == [] then None else Some(f.payload), rest),
               Encode(w, m, mask).bytes + rest);
  }

  lemma HandleOnce(c: Codec, p: Parse, src: Data)
    requires ParseFrame(src, c.server, c.max) == p && p.Parsed?
    ensures var (o, c1) := Handle(c, p.fin, p.op, p.payload); Decode(c, src) == Called(o, c1, p.rest)
  {}

  // ---------------------------------------------------------------- many messages

  /** A message given to the writer, with the random number drawn for it. */
  datatype Posted = Posted(m: Message, mask: bv32)

  /** The writer behind a list of messages, refused ones included. */
  function After(w: Codec, items: seq<Posted>): Codec {
    if items == [] then w
    else
      var e := Encode(After(w, items[..|items| - 1]), items[|items| - 1].m, items[|items| - 1].mask);
      if e.Wrote? then e.codec else After(w, items[..|items| - 1])
  }

  /** What the writer puts on the wire. */
  function Wire(w: Codec, items: seq<Posted>): Data {
    if items == [] then []
    else
      var e := Encode(After(w, items[..|items| - 1]), items[|items| - 1].m, items[|items| - 1].mask);
      Wire(w, items[..|items| - 1]) + if e.Wrote? then e.bytes else []
  }

  /** The messages that were not refused. */
  function Kept(w: Codec, items: seq<Posted>): (kept: seq<Posted>)
    ensures forall k :: 0 <= k < |kept| ==> kept[k] in items
  {
    if items == [] then []
    else
      var last := items[|items| - 1];
      Kept(w, items[..|items| - 1]) + if Accepts(After(w, items[..|items| - 1]), last.m) then [last] else []
  }

  ghost predicate AllAccepted(w: Codec, items: seq<Posted>) {
    forall k :: 0 <= k < |items| ==> Accepts(After(w, items[..k]), items[k].m)
  }

  lemma AcceptedLast(w: Codec, items: seq<Posted>, p: Posted)
    requires AllAccepted(w, items) && Accepts(After(w, items), p.m)
    ensures AllAccepted(w, items + [p])
  {
    var all := items + [p];
    forall k | 0 <= k < |all| ensures Accepts(After(w, all[..k]), all[k].m) {
      assert all[..k] == items[..k];
      assert items[..|items|] == items;
    }
  }

  /** A refused message leaves no trace. */
  lemma {:induction false} RefusedLeaveNoTrace(w: Codec, items: seq<Posted>)
    ensures var kept := Kept(w, items);
      AllAccepted(w, kept) && After(w, kept) == After(w, items) && Wire(w, kept) == Wire(w, items)
  {
    if items != [] {
      var before, last := items[..|items| - 1], items[|items| - 1];
      RefusedLeaveNoTrace(w, before);
      var kept := Kept(w, before);
      if Accepts(After(w, before), last.m) {
        AcceptedLast(w, kept, last);
        assert (kept + [last])[..|kept|] == kept;
      } else {
        assert kept + [] == kept && Wire(w, before) + [] == Wire(w, before);
      }
    }
  }

  // ---------------------------------------------------------------- sessions

  ghost predicate AllFit(items: seq<Posted>, max: nat) {
    forall k :: 0 <= k < |items| ==> Fits(items[k].m, max)
  }

  ghost predicate Peers(w: Codec, r: Codec) {
    r.server != w.server && r.reading == w.writing
  }

  /** The reader behind the first `k` messages. */
  function ReaderAt(w: Codec, r: Codec, items: seq<Posted>, k: nat): Codec
    requires k <= |items|
  {
    r.(reading := After(w, items[..k]).writing)
  }

  function BytesAt(w: Codec, items: seq<Posted>, k: nat): Data
    requires k < |items|
  {
    var e := Encode(After(w, items[..k]), items[k].m, items[k].mask);
    if e.Wrote? then e.bytes else []
  }

  function ScriptOf(w: Codec, r: Codec, items: seq<Posted>): (script: Script<Codec, Message, Byte>)
    ensures |script.states| == |items| + 1 && |script.frames| == |script.chunks| == |items|
  {
    Script(
      seq(|items| + 1, k requires 0 <= k <= |items| => ReaderAt(w, r, items, k)),
      seq(|items|, k requires 0 <= k < |items| => Arrives(items[k].m)),
      seq(|items|, k requires 0 <= k < |items| => BytesAt(w, items, k)))
  }

  lemma {:induction false} AfterServer(w: Codec, items: seq<Posted>)
    ensures After(w, items).server == w.server
  {
    if items != [] {
      AfterServer(w, items[..|items| - 1]);
    }
  }

  lemma MessageAt(w: Codec, r: Codec, items: seq<Posted>, k: nat, rest: Data)
    requires Peers(w, r) && AllAccepted(w, items) && AllFit(items, r.max) && k < |items|
    ensures DeliversAt(Decode, ScriptOf(w, r, items), k, rest)
  {
    AfterServer(w, items[..k]);
    assert items[..k + 1][..k] == items[..k];
    MessageRoundTrip(After(w, items[..k]), ReaderAt(w, r, items, k), items[k].m, items[k].mask, rest);
  }

  lemma ScriptDelivers(w: Codec, r: Codec, items: seq<Posted>)
    requires Peers(w, r) && AllAccepted(w, items) && AllFit(items, r.max)
    ensures Delivers(Decode, ScriptOf(w, r, items))
  {
    var script := ScriptOf(w, r, items);
    forall k: nat, rest: Data | k < |items| ensures DeliversAt(Decode, script, k, rest) {
      MessageAt(w, r, items, k, rest);
    }
    NothingWaits(script.states[|items|]);
  }

  lemma NothingWaits(c: Codec)
    ensures Decode(c, []) == Called(Waiting, c, [])
  {}

  lemma WaitingKeeps(c: Codec, src: Data)
    requires Decode(c, src).outcome.Waiting?
    ensures Decode(c, src) == Called(Waiting, c, src)
  {}

  lemma DecodeSteady()
    ensures Steady(Decode)
  {
    forall c: Codec, a: Data, b: Data ensures SteadyAt(Decode, c, a, b) {
      if Decode(c, a).outcome.Waiting? {
        WaitingKeeps(c, a);
      } else {
        DecodeStable(c, a, b);
      }
    }
  }

  lemma {:induction false} WireIsScript(w: Codec, r: Codec, items: seq<Posted>)
    ensures Flatten(ScriptOf(w, r, items).chunks) == Wire(w, items)
  {
    if items != [] {
      var before := items[..|items| - 1];
      WireIsScript(w, r, before);
      ChunksLast(w, r, items);
      var last := BytesAt(w, items, |items| - 1);
      FlattenAppend(ScriptOf(w, r, before).chunks, [last]);
      assert Flatten([last]) == last + Flatten([]);
    }
  }

  lemma ChunksLast(w: Codec, r: Codec, items: seq<Posted>)
    requires items != []
    ensures var n := |items| - 1;
      ScriptOf(w, r, items).chunks == ScriptOf(w, r, items[..n]).chunks + [BytesAt(w, items, n)]
  {
    var n := |items| - 1;
    var a, b := ScriptOf(w, r, items).chunks, ScriptOf(w, r, items[..n]).chunks + [BytesAt(w, items, n)];
    forall k | 0 <= k <= n ensures a[k] == b[k] {
      if k < n {
        assert items[..n][..k] == items[..k];
      }
    }
  }

  /** The frames read, the state of the reader and the next frame, in terms of the messages. */
  ghost predicate ReadsMessages(dec: Decoder<Codec, Message, Error, Byte>, w: Codec, r: Codec, kept: seq<Posted>,
      acts: seq<Action<Byte>>, future: Data)
  {
    var s := Run(dec, r, acts);
    var k := |s.frames|;
    && !s.failed && k <= |kept|
    && (forall i :: 0 <= i < k ==> s.frames[i] == Arrives(kept[i].m))
    && s.state == r.(reading := After(w, kept[..k]).writing)
    && (future == [] && k < |kept| ==> Run(dec, r, acts + [Poll]).frames == s.frames + [Arrives(kept[k].m)])
    && (k == |kept| ==> s.buf + future == [])
  }

  lemma ScriptReads(dec: Decoder<Codec, Message, Error, Byte>, w: Codec, r: Codec, kept: seq<Posted>,
      acts: seq<Action<Byte>>, future: Data)
    requires Peers(w, r) && Reads(dec, ScriptOf(w, r, kept), acts, future)
    ensures ReadsMessages(dec, w, r, kept, acts, future)
  {
    assert ReaderAt(w, r, kept, 0) == r;
  }

  /**
    Any messages given to the writer, refused ones included, in any pieces and with calls at any time: no call
    fails; the frames read so far are the first ones of those accepted, in order; the continuation flag of the
    reader is the one the writer had at that message; and once all bytes are there every call reads the next frame.
  */
  lemma SequenceRoundTrip(w: Codec, r: Codec, items: seq<Posted>, acts: seq<Action<Byte>>, future: Data)
    requires Peers(w, r) && AllFit(items, r.max)
    requires Fed(acts) + future == Wire(w, items)
    ensures ReadsMessages(Decode, w, r, Kept(w, items), acts, future)
    ensures After(w, Kept(w, items)) == After(w, items)
  {
    var kept := Kept(w, items);
    RefusedLeaveNoTrace(w, items);
    WireIsScript(w, r, kept);
    ScriptDelivers(w, r, kept);
    DecodeSteady();
    SessionReads(Decode, ScriptOf(w, r, kept), acts, future);
    ScriptReads(Decode, w, r, kept, acts, future);
  }
}
