/** A byte stream carried by WebSocket frames (`ws/transport.rs`). */
module WsTransport {
  import opened Basics
  import opened Mask
  import opened Streaming
  import opened WsFrame
  import opened WsCodec

  datatype Transport = Transport(codec: Codec, closed: bool, cont: bool, protoErr: bool)

  datatype Failure = BadFrames | NotStarted | TextFrame

  /** What the loop does with one frame: bytes handed up, messages sent back, and how it goes on. */
  datatype Next = Go | StopReading | Fail(failure: Failure)

  datatype Effect = Effect(t: Transport, out: Data, replies: seq<Message>, next: Next)

  /** `continuation_must_start`, followed by `e` if it succeeds. */
  function MustStart(t: Transport, e: Effect): Effect {
    if t.cont then e else Effect(t.(protoErr := true), [], [], Fail(NotStarted))
  }

  function OnFrame(t: Transport, frame: Message): Effect {
    match frame
    case Binary(d) => Effect(t, d, [], Go)
    case Continuation(FirstBinary(d)) => Effect(t.(cont := true), d, [], Go)
    case Continuation(Continue(d)) => MustStart(t, Effect(t, d, [], Go))
    case Continuation(Last(d)) => MustStart(t, Effect(t.(cont := false), d, [], Go))
    case Continuation(FirstText(_)) => Effect(t.(protoErr := true), [], [], Fail(TextFrame))
    case Text(_) => Effect(t.(protoErr := true), [], [], Fail(TextFrame))
    case Ping(d) => Effect(t, [], [Pong(d)], Go)
    case Pong(_) => Effect(t, [], [], Go)
    case Close(_) => Effect(t, [], [], StopReading)
  }

  type FrameDecoder = Decoder<Codec, Message, Error, Byte>

  ghost predicate ShrinksAt(dec: FrameDecoder, c: Codec, src: Data) {
    dec(c, src).outcome.Got? ==> |dec(c, src).rest| < |src|
  }

  /** A frame takes bytes off the buffer. */
  ghost predicate Shrinks(dec: FrameDecoder) {
    forall c: Codec, src: Data :: ShrinksAt(dec, c, src)
  }

  datatype Read = Read(t: Transport, rest: Data, out: Data, replies: seq<Message>, next: Next)

  /** The loop of `process_read_buf`. */
  function ReadLoop(dec: FrameDecoder, t: Transport, src: Data): Read
    requires Shrinks(dec)
    decreases |src|
  {
    assert ShrinksAt(dec, t.codec, src);
    var c := dec(t.codec, src);
    var t1 := t.(codec := c.state);
    match c.outcome
    case Waiting => Read(t1, c.rest, [], [], Go)
    case Failed(_) => Read(t1.(protoErr := true), c.rest, [], [], Fail(BadFrames))
    case Got(frame) =>
      var e := OnFrame(t1, frame);
      if !e.next.Go? then Read(e.t, c.rest, e.out, e.replies, e.next)
      else
        var more := ReadLoop(dec, e.t, c.rest);
        more.(out := e.out + more.out, replies := e.replies + more.replies)
  }

  /** `whole` is `out` and `replies` followed by what `more` gives. */
  predicate Before(whole: Read, out: Data, replies: seq<Message>, more: Read) {
    whole == more.(out := out + more.out, replies := replies + more.replies)
  }

  lemma BeforeMore(whole: Read, out: Data, replies: seq<Message>, add: Data, reply: seq<Message>)
    ensures forall a: Read, b: Read :: Before(whole, out, replies, a) && Before(a, add, reply, b)
              ==> Before(whole, out + add, replies + reply, b)
  {
    forall a: Read, b: Read | Before(whole, out, replies, a) && Before(a, add, reply, b)
      ensures Before(whole, out + add, replies + reply, b)
    {
      assert out + (add + b.out) == out + add + b.out;
      assert replies + (reply + b.replies) == replies + reply + b.replies;
    }
  }

  // ---------------------------------------------------------------- the two continuation flags

  /** Until a protocol error, the flag of the transport is the one of its codec. */
  predicate FlagsAgree(t: Transport) {
    t.protoErr || t.cont == t.codec.reading
  }

  ghost predicate TracksAt(dec: FrameDecoder, c: Codec, src: Data) {
    var r := dec(c, src);
    && (!r.outcome.Got? ==> r.state.reading == c.reading)
    && (r.outcome.Got? ==>
          var f := r.outcome.frame;
          if Starts(f) then !c.reading && r.state.reading
          else if f.Continuation? then c.reading && (r.state.reading <==> !f.item.Last?)
          else r.state.reading == c.reading)
  }

  /** A first fragment is only read outside a fragmented message, the others only inside. */
  ghost predicate Tracks(dec: FrameDecoder) {
    forall c: Codec, src: Data :: TracksAt(dec, c, src)
  }

  lemma FrameKeepsFlags(t: Transport, was: Codec, frame: Message)
    requires !t.protoErr && t.cont == was.reading
    requires if Starts(frame) then !was.reading && t.codec.reading
             else if frame.Continuation? then was.reading && (t.codec.reading <==> !frame.item.Last?)
             else t.codec.reading == was.reading
    ensures FlagsAgree(OnFrame(t, frame).t) && OnFrame(t, frame).next != Fail(NotStarted)
    ensures OnFrame(t, frame).next.Go? ==> !OnFrame(t, frame).t.protoErr
  {}

  /** Whatever arrives: a continuation is never found to lack its start, and the flags stay together. */
  lemma {:induction false} ReadKeepsFlags(dec: FrameDecoder, t: Transport, src: Data)
    requires Shrinks(dec) && Tracks(dec) && !t.protoErr && FlagsAgree(t)
    ensures var r := ReadLoop(dec, t, src);
      FlagsAgree(r.t) && r.next != Fail(NotStarted) && (r.t.protoErr <==> r.next.Fail?)
    decreases |src|
  {
    assert ShrinksAt(dec, t.codec, src) && TracksAt(dec, t.codec, src);
    var c := dec(t.codec, src);
    if c.outcome.Got? {
      var t1 := t.(codec := c.state);
      FrameKeepsFlags(t1, t.codec, c.outcome.frame);
      var e := OnFrame(t1, c.outcome.frame);
      if e.next.Go? {
        ReadKeepsFlags(dec, e.t, c.rest);
      }
    }
  }

  // ---------------------------------------------------------------- runs

  /** A page given to the transport, with the random number drawn for its mask. */
  datatype Page = Page(data: Data, mask: bv32)

  /**
    Bytes arrive, the read buffer is processed with random numbers at hand for the masks of replies, the owner writes
    pages or shuts the transport down.
  */
  datatype Event = Arrive(data: Data) | Process(masks: nat -> bv32) | WritePages(pages: seq<Page>)
                 | Shutdown(mask: bv32)

  /** The transport, its read buffer, the bytes handed up, the bytes put on the wire and the messages they are. */
  datatype State = State(t: Transport, buf: Data, out: Data, wire: Data, sent: seq<Posted>, ioClosed: bool)

  /** A message on the wire. */
  function PostedBytes(server: bool, p: Posted): Data {
    var f := FrameOf(p.m);
    WriteMessage(f.payload, f.op, f.fin, if server then None else Some(p.mask))
  }

  function Poster(server: bool): Posted -> Data {
    (p: Posted) => PostedBytes(server, p)
  }

  function SentBytes(server: bool, items: seq<Posted>): Data {
    Concat(Poster(server), items)
  }

  lemma SentAppend(server: bool, a: seq<Posted>, b: seq<Posted>)
    ensures SentBytes(server, a + b) == SentBytes(server, a) + SentBytes(server, b)
  {
    ConcatAppend(Poster(server), a, b);
  }

  lemma SentOne(server: bool, p: Posted)
    ensures SentBytes(server, [p]) == PostedBytes(server, p)
  {
    ConcatOne(Poster(server), p);
  }

  lemma SentGrows(base: Data, server: bool, items: seq<Posted>, p: Posted, was: Data, wire: Data)
    requires was == base + SentBytes(server, items) && wire == was + PostedBytes(server, p)
    ensures wire == base + SentBytes(server, items + [p])
  {
    SentAppend(server, items, [p]);
    SentOne(server, p);
    Assoc(base, SentBytes(server, items), PostedBytes(server, p));
  }

  /** A page as a message. */
  function PageMessage(p: Page): Posted {
    Posted(Binary(p.data), p.mask)
  }

  /** `process_write_buf`: every page is one binary message (`encode_page`). */
  function PageItems(pages: seq<Page>): seq<Posted> {
    Map(PageMessage, pages)
  }

  /** The replies of one call of the read loop, with the masks drawn for them from number `from` on. */
  function ReplyItems(replies: seq<Message>, masks: nat -> bv32, from: nat): seq<Posted> {
    seq(|replies|, i requires 0 <= i < |replies| => Posted(replies[i], masks(from + i)))
  }

  lemma RepliesAppend(a: seq<Message>, b: seq<Message>, masks: nat -> bv32, from: nat)
    ensures ReplyItems(a + b, masks, from) == ReplyItems(a, masks, from) + ReplyItems(b, masks, from + |a|)
  {
    var l, r := ReplyItems(a + b, masks, from), ReplyItems(a, masks, from) + ReplyItems(b, masks, from + |a|);
    forall i | 0 <= i < |l| ensures l[i] == r[i] {
      if i >= |a| {
        assert (a + b)[i] == b[i - |a|] && from + i == from + |a| + (i - |a|);
      }
    }
  }

  /** Replies already on the wire, and then more of them. */
  lemma RepliesGrow(base: Data, server: bool, a: seq<Message>, b: seq<Message>, masks: nat -> bv32, was: Data,
        wire: Data)
    requires was == base + SentBytes(server, ReplyItems(a, masks, 0))
    requires wire == was + SentBytes(server, ReplyItems(b, masks, |a|))
    ensures wire == base + SentBytes(server, ReplyItems(a + b, masks, 0))
  {
    RepliesAppend(a, b, masks, 0);
    SentAppend(server, ReplyItems(a, masks, 0), ReplyItems(b, masks, |a|));
    Assoc(base, SentBytes(server, ReplyItems(a, masks, 0)), SentBytes(server, ReplyItems(b, masks, |a|)));
  }

  lemma NoReplies(server: bool, masks: nat -> bv32, from: nat)
    ensures SentBytes(server, ReplyItems([], masks, from)) == []
  {}

  lemma OneReply(server: bool, m: Message, masks: nat -> bv32, from: nat)
    ensures SentBytes(server, ReplyItems([m], masks, from)) == PostedBytes(server, Posted(m, masks(from)))
  {
    assert ReplyItems([m], masks, from) == [Posted(m, masks(from))];
    SentOne(server, Posted(m, masks(from)));
  }

  /** `shutdown`: one close frame, whose code tells whether there was a protocol error. */
  function Closing(t: Transport): Message {
    Close(Some(Reason(if t.protoErr then Protocol else Normal, None)))
  }

  function Put(s: State, items: seq<Posted>): State {
    s.(wire := s.wire + SentBytes(s.t.codec.server, items), sent := s.sent + items)
  }

  function Apply(dec: FrameDecoder, s: State, ev: Event): State
    requires Shrinks(dec)
  {
    match ev
    case Arrive(data) => s.(buf := s.buf + data)
    case WritePages(pages) => Put(s, PageItems(pages))
    case Shutdown(mask) =>
      if s.t.closed then s
      else Put(s, [Posted(Closing(s.t), mask)]).(t := s.t.(closed := true, codec := Written(s.t.codec, Closing(s.t))))
    case Process(masks) =>
      var r := ReadLoop(dec, s.t, s.buf);
      var u := s.(t := r.t, buf := r.rest, out := s.out + r.out, ioClosed := s.ioClosed || r.next.StopReading?);
      Put(u, ReplyItems(r.replies, masks, 0))
  }

  function RunFrom(dec: FrameDecoder, c: Codec, evs: seq<Event>): State
    requires Shrinks(dec)
  {
    if evs == [] then State(Transport(c, false, false, false), [], [], [], [], false)
    else Apply(dec, RunFrom(dec, c, evs[..|evs| - 1]), evs[|evs| - 1])
  }

  function Arrived(evs: seq<Event>): Data {
    if evs == [] then []
    else Arrived(evs[..|evs| - 1]) + (if evs[|evs| - 1].Arrive? then evs[|evs| - 1].data else [])
  }

  /** In every run of a transport over a fresh codec the flags agree, so no continuation is refused for its start. */
  lemma {:induction false} RunKeepsFlags(dec: FrameDecoder, c: Codec, evs: seq<Event>)
    requires Shrinks(dec) && Tracks(dec) && !c.reading
    ensures var s := RunFrom(dec, c, evs);
      FlagsAgree(s.t) && (!s.t.protoErr ==> ReadLoop(dec, s.t, s.buf).next != Fail(NotStarted))
  {
    if evs != [] {
      RunKeepsFlags(dec, c, evs[..|evs| - 1]);
      var s := RunFrom(dec, c, evs[..|evs| - 1]);
      if evs[|evs| - 1].Process? && !s.t.protoErr {
        ReadKeepsFlags(dec, s.t, s.buf);
      } else if evs[|evs| - 1].Process? {
        ErrorStays(dec, s.t, s.buf);
      }
    }
    var s := RunFrom(dec, c, evs);
    if !s.t.protoErr {
      ReadKeepsFlags(dec, s.t, s.buf);
    }
  }

  lemma {:induction false} ErrorStays(dec: FrameDecoder, t: Transport, src: Data)
    requires Shrinks(dec) && t.protoErr
    ensures ReadLoop(dec, t, src).t.protoErr
    decreases |src|
  {
    assert ShrinksAt(dec, t.codec, src);
    var c := dec(t.codec, src);
    if c.outcome.Got? {
      var e := OnFrame(t.(codec := c.state), c.outcome.frame);
      if e.next.Go? {
        ErrorStays(dec, e.t, c.rest);
      }
    }
  }

  // ---------------------------------------------------------------- over the codec

  lemma MetadataAhead(src: Data, server: bool, max: nat)
    ensures var m := ParseMetadata(src, server, max); m.Meta? ==> 2 <= m.idx
  {}

  lemma FrameShrinks(src: Data, server: bool, max: nat)
    ensures var r := ParseFrame(src, server, max); r.Parsed? ==> |r.rest| < |src|
  {
    MetadataAhead(src, server, max);
  }

  lemma DecodeShrinks()
    ensures Shrinks(Decode)
  {
    forall c: Codec, src: Data ensures ShrinksAt(Decode, c, src) {
      FrameShrinks(src, c.server, c.max);
    }
  }

  lemma HandleTracks(c: Codec, fin: bool, op: OpCode, payload: Option<Data>)
    ensures var (o, c1) := Handle(c, fin, op, payload);
      && (!o.Got? ==> c1 == c)
      && (o.Got? && Starts(o.frame) ==> !c.reading && c1.reading)
      && (o.Got? && !Starts(o.frame) && o.frame.Continuation? ==> c.reading && (c1.reading <==> !o.frame.item.Last?))
      && (o.Got? && !o.frame.Continuation? ==> c1 == c)
  {}

  lemma DecodeTracks()
    ensures Tracks(Decode)
  {
    forall c: Codec, src: Data ensures TracksAt(Decode, c, src) {
      var p := ParseFrame(src, c.server, c.max);
      if p.Parsed? {
        HandleTracks(c, p.fin, p.op, p.payload);
        HandleOnce(c, p, src);
      }
    }
  }

  /** From a fresh codec the flags of transport and codec agree until a protocol error, whatever happens. */
  lemma TransportKeepsFlags(c: Codec, evs: seq<Event>)
    requires !c.reading
    ensures Shrinks(Decode)
    ensures var s := RunFrom(Decode, c, evs);
      FlagsAgree(s.t) && (!s.t.protoErr ==> ReadLoop(Decode, s.t, s.buf).next != Fail(NotStarted))
  {
    DecodeShrinks();
    DecodeTracks();
    RunKeepsFlags(Decode, c, evs);
  }
}
