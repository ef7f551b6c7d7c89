/** The transport as a byte stream: what one side writes comes out on the other. */
module WsStream {
  import opened Basics
  import opened Mask
  import opened Streaming
  import opened WsFrame
  import opened WsCodec
  import opened WsTransport

  // ---------------------------------------------------------------- what a running transport sends

  function Carried(m: Message): Data {
    match m
    case Binary(d) => d
    case Continuation(item) => item.data
    case _ => []
  }

  function CarriedBy(p: Posted): Data {
    Carried(p.m)
  }

  function PageData(p: Page): Data {
    p.data
  }

  /** What the owner of a transport wrote in a run. */
  function Owned(evs: seq<Event>): Data {
    if evs == [] then []
    else Owned(evs[..|evs| - 1]) + if evs[|evs| - 1].WritePages? then Concat(PageData, evs[|evs| - 1].pages) else []
  }

  /** Messages a transport sends: pages, short answers to pings, a close. */
  predicate Plain(m: Message) {
    m.Binary? || (m.Pong? && |m.data| <= 125) || (m.Close? && |ClosePayload(m.reason)| <= 125)
  }

  ghost predicate AllPlain(items: seq<Posted>) {
    forall k :: 0 <= k < |items| ==> Plain(items[k].m)
  }

  ghost predicate SmallAt(dec: FrameDecoder, c: Codec, src: Data) {
    var r := dec(c, src);
    r.outcome.Got? && r.outcome.frame.Ping? ==> |r.outcome.frame.data| <= 125
  }

  /** A ping that is read is short. */
  ghost predicate Small(dec: FrameDecoder) {
    forall c: Codec, src: Data :: SmallAt(dec, c, src)
  }

  /** Replies are answers to pings, and carry nothing of the stream. */
  ghost predicate Answers(replies: seq<Message>) {
    forall k :: 0 <= k < |replies| ==> replies[k].Pong? && |replies[k].data| <= 125
  }

  lemma {:induction false} RepliesAreAnswers(dec: FrameDecoder, t: Transport, src: Data)
    requires Shrinks(dec) && Small(dec)
    ensures Answers(ReadLoop(dec, t, src).replies)
    decreases |src|
  {
    assert ShrinksAt(dec, t.codec, src) && SmallAt(dec, t.codec, src);
    var c := dec(t.codec, src);
    if c.outcome.Got? {
      var e := OnFrame(t.(codec := c.state), c.outcome.frame);
      if e.next.Go? {
        RepliesAreAnswers(dec, e.t, c.rest);
      }
    }
  }

  ghost predicate ServerAt(dec: FrameDecoder, c: Codec, src: Data) {
    dec(c, src).state.server == c.server
  }

  /** Reading does not change the role. */
  ghost predicate KeepsRole(dec: FrameDecoder) {
    forall c: Codec, src: Data :: ServerAt(dec, c, src)
  }

  lemma {:induction false} ReadKeepsRole(dec: FrameDecoder, t: Transport, src: Data)
    requires Shrinks(dec) && KeepsRole(dec)
    ensures ReadLoop(dec, t, src).t.codec.server == t.codec.server && ReadLoop(dec, t, src).t.closed == t.closed
    decreases |src|
  {
    assert ShrinksAt(dec, t.codec, src) && ServerAt(dec, t.codec, src);
    var c := dec(t.codec, src);
    if c.outcome.Got? {
      var e := OnFrame(t.(codec := c.state), c.outcome.frame);
      if e.next.Go? {
        ReadKeepsRole(dec, e.t, c.rest);
      }
    }
  }

  /** At most one close, and none before the transport is shut down. */
  ghost predicate OneClose(items: seq<Posted>, closed: bool) {
    && (forall i, j :: 0 <= i < j < |items| && items[i].m.Close? ==> !items[j].m.Close?)
    && (!closed ==> forall i :: 0 <= i < |items| ==> !items[i].m.Close?)
  }

  /** What is on the wire of a running transport. */
  ghost predicate Sends(server: bool, owned: Data, s: State) {
    && s.t.codec.server == server
    && s.wire == SentBytes(server, s.sent)
    && AllPlain(s.sent) && OneClose(s.sent, s.t.closed)
    && Concat(CarriedBy, s.sent) == owned
  }

  lemma PutSends(server: bool, owned: Data, s: State, items: seq<Posted>, more: Data)
    requires Sends(server, owned, s) && AllPlain(items) && Concat(CarriedBy, items) == more
    requires forall i :: 0 <= i < |items| ==> !items[i].m.Close?
    ensures Sends(server, owned + more, Put(s, items))
  {
    SentAppend(server, s.sent, items);
    ConcatAppend(CarriedBy, s.sent, items);
    PlainAppend(s.sent, items, s.t.closed);
  }

  lemma PlainAppend(a: seq<Posted>, b: seq<Posted>, closed: bool)
    requires AllPlain(a) && AllPlain(b) && OneClose(a, closed) && forall i :: 0 <= i < |b| ==> !b[i].m.Close?
    ensures AllPlain(a + b) && OneClose(a + b, closed)
  {
    assert forall i :: |a| <= i < |a + b| ==> (a + b)[i] == b[i - |a|];
  }

  lemma {:induction false} PagesCarry(pages: seq<Page>)
    ensures Concat(CarriedBy, PageItems(pages)) == Concat(PageData, pages)
  {
    if pages != [] {
      var before, last := pages[..|pages| - 1], pages[|pages| - 1];
      PagesCarry(before);
      assert PageItems(pages)[..|pages| - 1] == PageItems(before);
    }
  }

  lemma {:induction false} AnswersCarryNothing(replies: seq<Message>, masks: nat -> bv32, from: nat)
    requires Answers(replies)
    ensures Concat(CarriedBy, ReplyItems(replies, masks, from)) == []
  {
    if replies != [] {
      var n := |replies| - 1;
      AnswersCarryNothing(replies[..n], masks, from);
      assert ReplyItems(replies, masks, from)[..n] == ReplyItems(replies[..n], masks, from);
    }
  }

  lemma CloseSends(server: bool, owned: Data, s: State, mask: bv32)
    requires Sends(server, owned, s) && !s.t.closed
    ensures var p := Posted(Closing(s.t), mask);
      Sends(server, owned, Put(s, [p]).(t := s.t.(closed := true, codec := Written(s.t.codec, p.m))))
  {
    var p := Posted(Closing(s.t), mask);
    SentAppend(server, s.sent, [p]);
    ConcatAppend(CarriedBy, s.sent, [p]);
    ConcatOne(CarriedBy, p);
    assert owned + [] == owned;
  }

  lemma ApplySends(dec: FrameDecoder, server: bool, owned: Data, s: State, ev: Event)
    requires Shrinks(dec) && Small(dec) && KeepsRole(dec) && Sends(server, owned, s)
    ensures Sends(server, owned + (if ev.WritePages? then Concat(PageData, ev.pages) else []), Apply(dec, s, ev))
  {
    assert owned + [] == owned;
    match ev
    case Arrive(_) =>
    case WritePages(pages) =>
      PagesCarry(pages);
      PutSends(server, owned, s, PageItems(pages), Concat(PageData, pages));
    case Shutdown(mask) =>
      if !s.t.closed {
        CloseSends(server, owned, s, mask);
      }
    case Process(masks) =>
      var r := ReadLoop(dec, s.t, s.buf);
      RepliesAreAnswers(dec, s.t, s.buf);
      ReadKeepsRole(dec, s.t, s.buf);
      AnswersCarryNothing(r.replies, masks, 0);
      var u := s.(t := r.t, buf := r.rest, out := s.out + r.out, ioClosed := s.ioClosed || r.next.StopReading?);
      PutSends(server, owned, u, ReplyItems(r.replies, masks, 0), []);
  }

  /** In every run: pages in order, between them answers to pings, and at most one close. */
  lemma {:induction false} RunSends(dec: FrameDecoder, c: Codec, evs: seq<Event>)
    requires Shrinks(dec) && Small(dec) && KeepsRole(dec)
    ensures Sends(c.server, Owned(evs), RunFrom(dec, c, evs))
  {
    if evs != [] {
      RunSends(dec, c, evs[..|evs| - 1]);
      ApplySends(dec, c.server, Owned(evs[..|evs| - 1]), RunFrom(dec, c, evs[..|evs| - 1]), evs[|evs| - 1]);
    }
  }

  // ---------------------------------------------------------------- what the other side reads

  ghost predicate BlindAt(dec: FrameDecoder, c: Codec, closed: bool, src: Data) {
    var r := dec(c, src);
    dec(c.(closed := closed), src) == r.(state := r.state.(closed := closed))
  }

  /** Reading does not look at whether a close was sent. */
  ghost predicate Blind(dec: FrameDecoder) {
    forall c: Codec, closed: bool, src: Data :: BlindAt(dec, c, closed, src)
  }

  ghost predicate Reliable(dec: FrameDecoder) {
    Steady(dec) && Shrinks(dec) && Tracks(dec) && Blind(dec)
  }

  /** Frames that make up a binary stream. */
  predicate Streams(m: Message) {
    m.Binary? || m.Ping? || m.Pong? || m.Close? || (m.Continuation? && !m.item.FirstText?)
  }

  ghost predicate AllStream(ms: seq<Message>) {
    forall k :: 0 <= k < |ms| ==> Streams(ms[k])
  }

  lemma FrameCarries(t: Transport, frame: Message)
    requires Streams(frame) && !t.protoErr && (frame.Continuation? && !Starts(frame) ==> t.cont)
    ensures var e := OnFrame(t, frame);
      && e.next == (if frame.Close? then StopReading else Go)
      && e.out == Carried(frame) && e.replies == PongFor(frame) && !e.t.protoErr && e.t.codec == t.codec
  {}

  /** The answer a frame calls for. */
  function PongFor(m: Message): seq<Message> {
    if m.Ping? then [Pong(m.data)] else []
  }

  /** The answer a sent message is. */
  function PongIn(p: Posted): seq<Message> {
    if p.m.Pong? then [p.m] else []
  }

  lemma {:induction false} RepliesArePongs(frames: seq<Message>)
    ensures forall i :: 0 <= i < |Concat(PongFor, frames)| ==> Concat(PongFor, frames)[i].Pong?
  {
    if frames != [] {
      RepliesArePongs(frames[..|frames| - 1]);
    }
  }

  lemma {:induction false} PongsPosted(replies: seq<Message>, masks: nat -> bv32, from: nat)
    requires forall i :: 0 <= i < |replies| ==> replies[i].Pong?
    ensures Concat(PongIn, ReplyItems(replies, masks, from)) == replies
  {
    if replies != [] {
      var n := |replies| - 1;
      PongsPosted(replies[..n], masks, from);
      assert ReplyItems(replies, masks, from)[..n] == ReplyItems(replies[..n], masks, from);
    }
  }

  lemma {:induction false} PagesAreNoPongs(pages: seq<Page>)
    ensures Concat(PongIn, PageItems(pages)) == []
  {
    if pages != [] {
      PagesAreNoPongs(pages[..|pages| - 1]);
      assert PageItems(pages)[..|pages| - 1] == PageItems(pages[..|pages| - 1]);
    }
  }

  type WsScript = Script<Codec, Message, Byte>

  /** The transport stands in front of frame `k` of a script, shut down or not. */
  ghost predicate InFront(script: WsScript, t: Transport, k: nat)
    requires Shaped(script)
  {
    && k <= |script.frames| && t.codec == script.states[k].(closed := t.codec.closed)
    && !t.protoErr && FlagsAgree(t)
  }

  lemma NextFrame(dec: FrameDecoder, script: WsScript, t: Transport, k: nat, src: Data, future: Data)
    requires Reliable(dec) && Delivers(dec, script) && InFront(script, t, k) && k < |script.frames|
    requires src + future == Flatten(script.chunks[k..])
    ensures var c := dec(t.codec, src);
      if c.outcome.Waiting? then c.state == t.codec && c.rest == src && future != []
      else c.outcome == Got(script.frames[k]) && c.state == script.states[k + 1].(closed := t.codec.closed)
           && c.rest + future == Flatten(script.chunks[k + 1..])
  {
    assert DeliversAt(dec, script, k, Flatten(script.chunks[k + 1..]));
    NextChunk(dec, script, k, src + future);
    assert BlindAt(dec, script.states[k], t.codec.closed, src + future);
    assert SteadyAt(dec, t.codec, src, future);
    CallOnPart(dec, t.codec, src, future, script.frames[k], script.states[k + 1].(closed := t.codec.closed),
               Flatten(script.chunks[k + 1..]));
  }

  lemma NothingLeft(dec: FrameDecoder, script: WsScript, t: Transport)
    requires Reliable(dec) && Delivers(dec, script) && InFront(script, t, |script.frames|)
    ensures dec(t.codec, []) == Called(Waiting, t.codec, [])
  {
    assert BlindAt(dec, script.states[|script.frames|], t.codec.closed, []);
    assert SteadyAt(dec, t.codec, [], []);
  }

  /** Where a call of the loop leaves off: for lack of input, behind a close, or at a text. */
  ghost predicate LeavesOff(script: WsScript, r: Read, k: nat, k': nat, future: Data)
    requires Shaped(script) && k <= k' <= |script.frames|
  {
    match r.next
    case Go =>
      InFront(script, r.t, k') && r.out == Concat(Carried, script.frames[k..k'])
      && (future == [] ==> k' == |script.frames|)
    case StopReading =>
      InFront(script, r.t, k') && r.out == Concat(Carried, script.frames[k..k'])
      && k < k' && script.frames[k' - 1].Close?
    case Fail(why) =>
      k < k' && !Streams(script.frames[k' - 1]) && why.TextFrame? && r.t.protoErr
      && r.out == Concat(Carried, script.frames[k..k' - 1])
  }

  /** What one call of the loop does to a reader of the script in front of frame `k`. */
  ghost predicate ReadsOn(script: WsScript, r: Read, k: nat, k': nat, future: Data)
    requires Shaped(script)
  {
    && k <= k' <= |script.frames| && LeavesOff(script, r, k, k', future)
    && r.replies == Concat(PongFor, script.frames[k..k'])
    && r.rest + future == Flatten(script.chunks[k'..])
    && (forall i :: k <= i < k' - 1 ==> Streams(script.frames[i]) && !script.frames[i].Close?)
  }

  lemma ConcatFrom<T>(g: Message -> seq<T>, frames: seq<Message>, k: nat, e: nat)
    requires k < e <= |frames|
    ensures Concat(g, frames[k..e]) == g(frames[k]) + Concat(g, frames[k + 1..e])
  {
    assert frames[k..e] == [frames[k]] + frames[k + 1..e];
    ConcatAppend(g, [frames[k]], frames[k + 1..e]);
    ConcatOne(g, frames[k]);
  }

  lemma ReadsOnFrom(script: WsScript, r: Read, more: Read, k: nat, k': nat, future: Data)
    requires Shaped(script) && k < |script.frames| && ReadsOn(script, more, k + 1, k', future)
    requires Streams(script.frames[k]) && !script.frames[k].Close?
    requires r == more.(out := Carried(script.frames[k]) + more.out,
                        replies := PongFor(script.frames[k]) + more.replies)
    ensures ReadsOn(script, r, k, k', future)
  {
    ConcatFrom(PongFor, script.frames, k, k');
    if r.next.Fail? {
      ConcatFrom(Carried, script.frames, k, k' - 1);
    } else {
      ConcatFrom(Carried, script.frames, k, k');
    }
  }

  /** A frame that ends the call. */
  lemma FrameEnds(script: WsScript, t: Transport, t1: Transport, k: nat, rest: Data, future: Data)
    requires Shaped(script) && InFront(script, t, k) && k < |script.frames|
    requires t1 == t.(codec := script.states[k + 1].(closed := t.codec.closed))
    requires rest + future == Flatten(script.chunks[k + 1..])
    requires script.frames[k].Close? || !Streams(script.frames[k])
    requires FlagsAgree(OnFrame(t1, script.frames[k]).t)
    ensures var e := OnFrame(t1, script.frames[k]);
      ReadsOn(script, Read(e.t, rest, e.out, e.replies, e.next), k, k + 1, future) && !e.next.Go?
  {
    assert script.frames[k..k] == [] && script.frames[k..k + 1] == [script.frames[k]];
    ConcatOne(Carried, script.frames[k]);
    ConcatOne(PongFor, script.frames[k]);
  }

  /**
    One call of the loop, on any frames: it reads on to some frame `k'`, to the end if everything has arrived, to a
    close, or to a text, which it refuses; it hands up what the frames before carry, and answers every ping among
    them with its data.
  */
  lemma {:induction false} ReadFollows(dec: FrameDecoder, script: WsScript, t: Transport, k: nat, src: Data,
        future: Data)
    returns (k': nat)
    requires Reliable(dec) && Delivers(dec, script)
    requires InFront(script, t, k) && src + future == Flatten(script.chunks[k..])
    ensures ReadsOn(script, ReadLoop(dec, t, src), k, k', future)
    decreases |src|
  {
    assert ShrinksAt(dec, t.codec, src) && TracksAt(dec, t.codec, src);
    var c := dec(t.codec, src);
    k' := k;
    assert script.frames[k..k] == [];
    if k == |script.frames| {
      assert src == [];
      NothingLeft(dec, script, t);
    } else {
      NextFrame(dec, script, t, k, src, future);
      if c.outcome.Got? {
        var t1, frame := t.(codec := c.state), script.frames[k];
        FrameKeepsFlags(t1, t.codec, frame);
        if frame.Close? || !Streams(frame) {
          k' := k + 1;
          FrameEnds(script, t, t1, k, c.rest, future);
        } else {
          FrameCarries(t1, frame);
          var e := OnFrame(t1, frame);
          k' := ReadFollows(dec, script, e.t, k + 1, c.rest, future);
          ReadsOnFrom(script, ReadLoop(dec, t, src), ReadLoop(dec, e.t, c.rest), k, k', future);
        }
      }
    }
  }

  // ---------------------------------------------------------------- runs of the reader

  /** The reader has read the first `k` frames; `future` is still to arrive. */
  ghost predicate HasRead(script: WsScript, s: State, k: nat, future: Data)
    requires Shaped(script)
  {
    && InFront(script, s.t, k)
    && s.out == Concat(Carried, script.frames[..k])
    && Concat(PongIn, s.sent) == Concat(PongFor, script.frames[..k])
    && s.buf + future == Flatten(script.chunks[k..])
  }

  /** The last event of the run is a call of the loop. */
  predicate JustRead(evs: seq<Event>) {
    evs != [] && evs[|evs| - 1].Process?
  }

  /** The last two events are; the loop leaves off behind a close once. */
  predicate ReadTwice(evs: seq<Event>) {
    JustRead(evs) && JustRead(evs[..|evs| - 1])
  }

  ghost predicate OneCloseFrame(frames: seq<Message>) {
    forall i, j :: 0 <= i < j < |frames| && frames[i].Close? ==> !frames[j].Close?
  }

  ghost predicate AtEnd(script: WsScript, k: nat)
    requires Shaped(script)
  {
    k == |script.frames| || (0 < k < |script.frames| && script.frames[k - 1].Close?)
  }

  lemma PutReads(script: WsScript, s: State, items: seq<Posted>, k: nat, future: Data)
    requires Shaped(script) && HasRead(script, s, k, future) && Concat(PongIn, items) == []
    ensures HasRead(script, Put(s, items), k, future)
  {
    ConcatAppend(PongIn, s.sent, items);
  }

  lemma LoopReads(dec: FrameDecoder, script: WsScript, s: State, masks: nat -> bv32, k: nat, future: Data)
    returns (k': nat)
    requires Reliable(dec) && Delivers(dec, script) && AllStream(script.frames) && HasRead(script, s, k, future)
    ensures k <= k' && HasRead(script, Apply(dec, s, Process(masks)), k', future)
    ensures future == [] ==> AtEnd(script, k')
    ensures future == [] && AtEnd(script, k) && OneCloseFrame(script.frames) ==> k' == |script.frames|
  {
    k' := ReadFollows(dec, script, s.t, k, s.buf, future);
    var r := ReadLoop(dec, s.t, s.buf);
    assert script.frames[..k'] == script.frames[..k] + script.frames[k..k'];
    ConcatAppend(Carried, script.frames[..k], script.frames[k..k']);
    ConcatAppend(PongFor, script.frames[..k], script.frames[k..k']);
    RepliesArePongs(script.frames[k..k']);
    PongsPosted(r.replies, masks, 0);
    ConcatAppend(PongIn, s.sent, ReplyItems(r.replies, masks, 0));
  }

  lemma ArriveReads(script: WsScript, s: State, k: nat, data: Data, future: Data)
    requires Shaped(script) && HasRead(script, s, k, data + future)
    ensures HasRead(script, s.(buf := s.buf + data), k, future)
  {
    Assoc(s.buf, data, future);
  }

  /** An event other than an arrival. */
  lemma StepReads(dec: FrameDecoder, script: WsScript, s: State, ev: Event, k: nat, future: Data) returns (k': nat)
    requires Reliable(dec) && Delivers(dec, script) && AllStream(script.frames) && HasRead(script, s, k, future)
    requires !ev.Arrive?
    ensures HasRead(script, Apply(dec, s, ev), k', future)
    ensures future == [] && ev.Process? ==> AtEnd(script, k')
    ensures future == [] && ev.Process? && AtEnd(script, k) && OneCloseFrame(script.frames) ==> k' == |script.frames|
  {
    k' := k;
    match ev
    case WritePages(pages) =>
      PagesAreNoPongs(pages);
      PutReads(script, s, PageItems(pages), k, future);
    case Shutdown(mask) =>
      ConcatOne(PongIn, Posted(Closing(s.t), mask));
      PutReads(script, s, [Posted(Closing(s.t), mask)], k, future);
    case Process(masks) => k' := LoopReads(dec, script, s, masks, k, future);
  }

  lemma NothingRead(dec: FrameDecoder, script: WsScript, future: Data)
    requires Reliable(dec) && Delivers(dec, script) && !script.states[0].reading && future == Flatten(script.chunks)
    ensures HasRead(script, RunFrom(dec, script.states[0], []), 0, future)
  {
    assert [] + future == future && script.chunks[0..] == script.chunks;
  }

  /** In every run the bytes handed up are those of the first `k` frames. */
  lemma {:induction false} RunReads(dec: FrameDecoder, script: WsScript, evs: seq<Event>, future: Data) returns (k: nat)
    requires Reliable(dec) && Delivers(dec, script) && AllStream(script.frames) && OneCloseFrame(script.frames)
    requires !script.states[0].reading && Arrived(evs) + future == Flatten(script.chunks)
    ensures HasRead(script, RunFrom(dec, script.states[0], evs), k, future)
    ensures future == [] && JustRead(evs) ==> AtEnd(script, k)
    ensures future == [] && ReadTwice(evs) ==> k == |script.frames|
  {
    if evs == [] {
      k := 0;
      assert [] + future == future;
      NothingRead(dec, script, future);
    } else {
      var before, ev := evs[..|evs| - 1], evs[|evs| - 1];
      var s := RunFrom(dec, script.states[0], before);
      if ev.Arrive? {
        Assoc(Arrived(before), ev.data, future);
        k := RunReads(dec, script, before, ev.data + future);
        ArriveReads(script, s, k, ev.data, future);
      } else {
        assert Arrived(evs) == Arrived(before) + [] == Arrived(before);
        var k0 := RunReads(dec, script, before, future);
        k := StepReads(dec, script, s, ev, k0, future);
      }
    }
  }

  /** Every frame of a script has bytes. */
  lemma NoEmptyChunks(dec: FrameDecoder, script: WsScript, k: nat)
    requires Shrinks(dec) && Delivers(dec, script) && k < |script.frames|
    ensures Flatten(script.chunks[k..]) != []
  {
    assert DeliversAt(dec, script, k, []);
    assert ShrinksAt(dec, script.states[k], script.chunks[k] + []);
    assert script.chunks[k] + [] == script.chunks[k];
  }

  // ---------------------------------------------------------------- over the codec

  lemma DecodeSmall()
    ensures Small(Decode)
  {
    forall c: Codec, src: Data ensures SmallAt(Decode, c, src) {
      PingIsShort(src, c.server, c.max);
    }
  }

  lemma PingIsShort(src: Data, server: bool, max: nat)
    ensures var r := ParseFrame(src, server, max);
            r.Parsed? && r.op.PingOp? && r.payload.Some? ==> |r.payload.value| <= 125
  {}

  lemma HandleBlind(c: Codec, closed: bool, fin: bool, op: OpCode, payload: Option<Data>)
    ensures var (o, c1) := Handle(c, fin, op, payload);
      Handle(c.(closed := closed), fin, op, payload) == (o, c1.(closed := closed)) && c1.server == c.server
  {}

  lemma DecodeBlindAt(c: Codec, closed: bool, src: Data)
    ensures BlindAt(Decode, c, closed, src) && ServerAt(Decode, c, src)
  {
    var p := ParseFrame(src, c.server, c.max);
    if p.Parsed? {
      HandleBlind(c, closed, p.fin, p.op, p.payload);
      HandleOnce(c, p, src);
      HandleOnce(c.(closed := closed), p, src);
    } else {
      NotParsed(c, p, src);
      NotParsed(c.(closed := closed), p, src);
    }
  }

  lemma DecodeBlind()
    ensures Blind(Decode) && KeepsRole(Decode)
  {
    forall c: Codec, closed: bool, src: Data ensures BlindAt(Decode, c, closed, src) {
      DecodeBlindAt(c, closed, src);
    }
    forall c: Codec, src: Data ensures ServerAt(Decode, c, src) {
      DecodeBlindAt(c, c.closed, src);
    }
  }

  lemma NotParsed(c: Codec, p: Parse, src: Data)
    requires ParseFrame(src, c.server, c.max) == p && !p.Parsed?
    ensures Decode(c, src) == (if p.ParsePartial? then Called(Waiting, c, src) else Called(Failed(p.error), c, p.rest))
  {}

  lemma DecodeReliable()
    ensures Reliable(Decode)
  {
    DecodeSteady();
    DecodeShrinks();
    DecodeTracks();
    DecodeBlind();
  }

  /** A run of a transport over the codec. */
  ghost function Runs(c: Codec, evs: seq<Event>): State {
    DecodeShrinks();
    RunFrom(Decode, c, evs)
  }

  lemma {:induction false} WireIsSent(w: Codec, items: seq<Posted>)
    requires AllPlain(items)
    ensures AllAccepted(w, items) && Wire(w, items) == SentBytes(w.server, items)
  {
    if items != [] {
      var n := |items| - 1;
      WireIsSent(w, items[..n]);
      AfterServer(w, items[..n]);
      PlainEncodes(After(w, items[..n]), items[n]);
      WireStep(w, items);
    }
  }

  lemma PlainEncodes(c: Codec, p: Posted)
    requires Plain(p.m)
    ensures Accepts(c, p.m) && Encode(c, p.m, p.mask).Wrote? && Encode(c, p.m, p.mask).bytes == PostedBytes(c.server, p)
  {}

  lemma WireStep(w: Codec, items: seq<Posted>)
    requires items != []
    ensures var n := |items| - 1;
      var e := Encode(After(w, items[..n]), items[n].m, items[n].mask);
      Wire(w, items) == Wire(w, items[..n]) + if e.Wrote? then e.bytes else []
  {}

  /** What is sent makes a script for the other side. */
  lemma SentScript(w: Codec, r: Codec, items: seq<Posted>)
    requires r.server != w.server && r.reading == w.writing && r.max < WsFrame.TWO_64 && AllPlain(items)
    requires forall k :: 0 <= k < |items| ==> |FrameOf(items[k].m).payload| <= r.max
    ensures var script := ScriptOf(w, r, items);
      && Delivers(Decode, script) && script.states[0] == r
      && Flatten(script.chunks) == SentBytes(w.server, items)
  {
    WireIsSent(w, items);
    WireIsScript(w, r, items);
    forall k | 0 <= k < |items| ensures Fits(items[k].m, r.max) {
      PlainFits(items[k].m, r.max);
    }
    ScriptDelivers(w, r, items);
    assert ReaderAt(w, r, items, 0) == r;
  }

  lemma PlainFits(m: Message, max: nat)
    requires Plain(m) && |FrameOf(m).payload| <= max < WsFrame.TWO_64
    ensures Fits(m, max)
  {}

  lemma {:induction false} FramesCarry(w: Codec, r: Codec, items: seq<Posted>, n: nat)
    requires n <= |items| && AllPlain(items)
    ensures Concat(Carried, ScriptOf(w, r, items).frames[..n]) == Concat(CarriedBy, items[..n])
  {
    if n > 0 {
      FramesCarry(w, r, items, n - 1);
      var frames := ScriptOf(w, r, items).frames;
      assert frames[..n][..n - 1] == frames[..n - 1] && items[..n][..n - 1] == items[..n - 1];
      assert frames[n - 1] == Arrives(items[n - 1].m);
    }
  }

  lemma FramesFit(w: Codec, r: Codec, items: seq<Posted>, closed: bool)
    requires AllPlain(items) && OneClose(items, closed)
    ensures var frames := ScriptOf(w, r, items).frames;
      && AllStream(frames) && OneCloseFrame(frames)
      && (!closed ==> forall k :: 0 <= k < |frames| ==> !frames[k].Close?)
  {
    var frames := ScriptOf(w, r, items).frames;
    assert forall k :: 0 <= k < |frames| ==>
      && frames[k] == Arrives(items[k].m)
      && (frames[k].Close? <==> items[k].m.Close?);
  }

  /** A prefix of what was written has come out, and all of it when nothing is outstanding. */
  predicate Comes(s: State, owned: Data, future: Data, settled: bool) {
    && !s.t.protoErr && s.out <= owned
    && (future == [] && (s.buf == [] || settled) ==> s.out == owned && s.buf == [])
  }

  /** Everything that arrived was read: the loop was called, and once more if there is a close to read past. */
  predicate Settled(evs: seq<Event>, closed: bool) {
    JustRead(evs) && (closed ==> ReadTwice(evs))
  }

  /**
    What the owner of one transport writes comes out on the other side as the same bytes. The writer is any run of a
    transport: it also reads whatever arrives, answers pings between its pages and may be shut down. However its wire
    is cut, whenever the reader processes its buffer and whatever else the reader's owner does, what has come out is
    a prefix; when everything has arrived and is read, it is all.
  */
  lemma TransportIdentity(w: Codec, written: seq<Event>, r: Codec, evs: seq<Event>, future: Data)
    requires r.server != w.server && !r.reading && !w.writing && r.max < WsFrame.TWO_64
    requires forall k :: 0 <= k < |Runs(w, written).sent| ==> |FrameOf(Runs(w, written).sent[k].m).payload| <= r.max
    requires Arrived(evs) + future == Runs(w, written).wire
    ensures Comes(Runs(r, evs), Owned(written), future, Settled(evs, Runs(w, written).t.closed))
  {
    DecodeReliable();
    DecodeSmall();
    DecodeBlind();
    RunSends(Decode, w, written);
    var sender := Runs(w, written);
    var script := ScriptOf(w, r, sender.sent);
    SentScript(w, r, sender.sent);
    FramesFit(w, r, sender.sent, sender.t.closed);
    FramesCarry(w, r, sender.sent, |sender.sent|);
    assert script.frames[..|sender.sent|] == script.frames && sender.sent[..|sender.sent|] == sender.sent;
    ScriptComes(Decode, script, sender.t.closed, Owned(written), evs, future);
  }

  lemma ScriptComes(dec: FrameDecoder, script: WsScript, closed: bool, owned: Data, evs: seq<Event>, future: Data)
    requires Reliable(dec) && Delivers(dec, script) && AllStream(script.frames) && OneCloseFrame(script.frames)
    requires !closed ==> forall k :: 0 <= k < |script.frames| ==> !script.frames[k].Close?
    requires !script.states[0].reading && Arrived(evs) + future == Flatten(script.chunks)
    requires Concat(Carried, script.frames) == owned
    ensures Comes(RunFrom(dec, script.states[0], evs), owned, future, Settled(evs, closed))
  {
    var k := RunReads(dec, script, evs, future);
    var s := RunFrom(dec, script.states[0], evs);
    assert script.frames == script.frames[..k] + script.frames[k..];
    ConcatAppend(Carried, script.frames[..k], script.frames[k..]);
    if future == [] {
      assert s.buf + [] == s.buf;
      if k < |script.frames| {
        NoEmptyChunks(dec, script, k);
      } else {
        assert script.frames[..k] == script.frames;
      }
    }
  }

  /** What the messages of a peer's codec are, as frames. */
  function MessagesOf(items: seq<Posted>): seq<Message> {
    Map((p: Posted) => Arrives(p.m), items)
  }

  /** Messages of a binary stream, with at most one close. */
  ghost predicate StreamItems(items: seq<Posted>) {
    && (forall k :: 0 <= k < |items| ==> Streams(items[k].m))
    && (forall i, j :: 0 <= i < j < |items| && items[i].m.Close? ==> !items[j].m.Close?)
  }

  /**
    A transport against any peer that sends a binary stream with pings, pongs and fragments as it likes: what has come
    out is what the first `k` messages carry, and the pongs sent are exactly the answers to the pings among them, in
    order and with their data; all of them when everything has arrived and the loop was called twice.
  */
  lemma PingsAnswered(w: Codec, items: seq<Posted>, r: Codec, evs: seq<Event>, future: Data) returns (k: nat)
    requires Peers(w, r) && !r.reading && AllAccepted(w, items) && AllFit(items, r.max) && StreamItems(items)
    requires Arrived(evs) + future == Wire(w, items)
    ensures k <= |items| && !Runs(r, evs).t.protoErr
    ensures Runs(r, evs).out == Concat(Carried, MessagesOf(items)[..k])
    ensures Concat(PongIn, Runs(r, evs).sent) == Concat(PongFor, MessagesOf(items)[..k])
    ensures future == [] && ReadTwice(evs) ==> k == |items|
  {
    DecodeReliable();
    var script := ItemsScript(w, r, items);
    k := ScriptAnswers(Decode, script, evs, future);
  }

  lemma ItemsScript(w: Codec, r: Codec, items: seq<Posted>) returns (script: WsScript)
    requires Peers(w, r) && AllAccepted(w, items) && AllFit(items, r.max) && StreamItems(items)
    ensures Delivers(Decode, script) && script.states[0] == r && script.frames == MessagesOf(items)
    ensures Flatten(script.chunks) == Wire(w, items) && AllStream(script.frames) && OneCloseFrame(script.frames)
  {
    script := ScriptOf(w, r, items);
    WireIsScript(w, r, items);
    ScriptDelivers(w, r, items);
    assert ReaderAt(w, r, items, 0) == r;
    assert script.frames == MessagesOf(items);
  }

  lemma ScriptAnswers(dec: FrameDecoder, script: WsScript, evs: seq<Event>, future: Data) returns (k: nat)
    requires Reliable(dec) && Delivers(dec, script) && AllStream(script.frames) && OneCloseFrame(script.frames)
    requires !script.states[0].reading && Arrived(evs) + future == Flatten(script.chunks)
    ensures var s := RunFrom(dec, script.states[0], evs);
      && k <= |script.frames| && !s.t.protoErr && s.out == Concat(Carried, script.frames[..k])
      && Concat(PongIn, s.sent) == Concat(PongFor, script.frames[..k])
      && (future == [] && ReadTwice(evs) ==> k == |script.frames|)
  {
    k := RunReads(dec, script, evs, future);
  }
}
